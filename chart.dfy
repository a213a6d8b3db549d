/**
 * make_graph: both series are cut with one cutoff string before plotting,
 * keeping the records whose Date is on or before it (records older than the
 * cutoff, not recent ones). The figure itself is reduced to its title and
 * the two series it would plot.
 */
module Chart {
  import opened Sequences
  import opened Dates
  import opened Revenue

  /** One record of the price history: its Date, as 'YYYY-MM-DD', and its Close. */
  datatype PriceRow = PriceRow(date: string, close: real)

  /** What the two-row figure shows: the title, the price panel, the revenue panel. */
  datatype Graph = Graph(title: string, prices: seq<PriceRow>, revenue: seq<RevenueRow>)

  function PriceDate(p: PriceRow): string
  {
    p.date
  }

  function RevenueDate(r: RevenueRow): string
  {
    r.date
  }

  /**
   * The mask of make_graph: a record passes when its date string is at most
   * the cutoff string, which on 'YYYY-MM-DD' dates means not after the cutoff day.
   */
  function OnOrBefore<R(!new)>(dateOf: R -> string, cutoff: string): (keep: R -> bool)
    ensures forall row :: keep(row) <==> LexLeq(dateOf(row), cutoff)
    ensures forall row :: IsIsoDate(cutoff) && IsIsoDate(dateOf(row)) ==>
      (keep(row) <==> DateKey(dateOf(row)) <= DateKey(cutoff))
  {
    IsoDateOrderAll();
    row => LexLeq(dateOf(row), cutoff)
  }

  /** The records of a series that pass the cutoff mask, in their original order. */
  function KeepOnOrBefore<R(!new)>(rows: seq<R>, dateOf: R -> string, cutoff: string): (r: seq<R>)
    ensures forall x :: x in r <==> x in rows && LexLeq(dateOf(x), cutoff)
  {
    Filter(rows, OnOrBefore(dateOf, cutoff))
  }

  /** The cut keeps each record dated on or before the cutoff as often as it occurs, and no other. */
  lemma KeepOnOrBeforeCounts<R(!new)>(rows: seq<R>, dateOf: R -> string, cutoff: string)
    ensures forall x ::
      multiset(KeepOnOrBefore(rows, dateOf, cutoff))[x] == if LexLeq(dateOf(x), cutoff) then multiset(rows)[x] else 0
  {
    FilterCounts(rows, OnOrBefore(dateOf, cutoff));
  }

  /** The cut keeps the relative order of the records it keeps. */
  lemma KeepOnOrBeforeConcat<R(!new)>(a: seq<R>, b: seq<R>, dateOf: R -> string, cutoff: string)
    ensures KeepOnOrBefore(a + b, dateOf, cutoff) == KeepOnOrBefore(a, dateOf, cutoff) + KeepOnOrBefore(b, dateOf, cutoff)
  {
    FilterConcat(a, b, OnOrBefore(dateOf, cutoff));
  }

  /** Cutting at a later date and then at an earlier one is cutting at the earlier one. */
  lemma EarlierCutoffNarrows<R(!new)>(rows: seq<R>, dateOf: R -> string, earlier: string, later: string)
    requires LexLeq(earlier, later)
    ensures KeepOnOrBefore(KeepOnOrBefore(rows, dateOf, later), dateOf, earlier) == KeepOnOrBefore(rows, dateOf, earlier)
  {
    forall i | 0 <= i < |rows| && OnOrBefore(dateOf, earlier)(rows[i])
      ensures OnOrBefore(dateOf, later)(rows[i])
    {
      LexLeqTransitive(dateOf(rows[i]), earlier, later);
    }
    FilterNarrow(rows, OnOrBefore(dateOf, later), OnOrBefore(dateOf, earlier));
  }

  /** The cut of a non-empty series: its first record if that one passes, then the cut of the rest. */
  lemma KeepOnOrBeforeCons<R(!new)>(rows: seq<R>, dateOf: R -> string, cutoff: string)
    requires rows != []
    ensures KeepOnOrBefore(rows, dateOf, cutoff) ==
      (if LexLeq(dateOf(rows[0]), cutoff) then [rows[0]] else []) + KeepOnOrBefore(rows[1..], dateOf, cutoff)
  {
  }

  /** The dates of `rows` never decrease. */
  predicate DatesAscending<R>(rows: seq<R>, dateOf: R -> string)
  {
    forall i, j :: 0 <= i < j < |rows| ==> LexLeq(dateOf(rows[i]), dateOf(rows[j]))
  }

  /** Once the first record of an ascending series is after the cutoff, every record is. */
  lemma AscendingAfterCutoff<R(!new)>(rows: seq<R>, dateOf: R -> string, cutoff: string)
    requires DatesAscending(rows, dateOf)
    requires rows != [] && !LexLeq(dateOf(rows[0]), cutoff)
    ensures KeepOnOrBefore(rows, dateOf, cutoff) == []
  {
    forall j | 0 <= j < |rows| ensures !OnOrBefore(dateOf, cutoff)(rows[j]) {
      if LexLeq(dateOf(rows[j]), cutoff) {
        LexLeqTransitive(dateOf(rows[0]), dateOf(rows[j]), cutoff);
      }
    }
    FilterKeepsNone(rows, OnOrBefore(dateOf, cutoff));
  }

  lemma AscendingTail<R>(rows: seq<R>, dateOf: R -> string)
    requires rows != [] && DatesAscending(rows, dateOf)
    ensures DatesAscending(rows[1..], dateOf)
  {
    forall i, j | 0 <= i < j < |rows| - 1
      ensures LexLeq(dateOf(rows[1..][i]), dateOf(rows[1..][j]))
    {
      assert rows[1..][i] == rows[i + 1] && rows[1..][j] == rows[j + 1];
    }
  }

  lemma PrefixOfTail<R>(rows: seq<R>, rest: seq<R>)
    requires rows != [] && |rest| < |rows| && rest == rows[1..][..|rest|]
    ensures [rows[0]] + rest == rows[..|rest| + 1]
  {
  }

  /** On a series in ascending date order the cut keeps a prefix: the oldest records. */
  lemma {:induction false} SortedKeepsPrefix<R(!new)>(rows: seq<R>, dateOf: R -> string, cutoff: string)
    requires DatesAscending(rows, dateOf)
    ensures |KeepOnOrBefore(rows, dateOf, cutoff)| <= |rows|
    ensures KeepOnOrBefore(rows, dateOf, cutoff) == rows[..|KeepOnOrBefore(rows, dateOf, cutoff)|]
  {
    if rows != [] {
      if LexLeq(dateOf(rows[0]), cutoff) {
        var rest := KeepOnOrBefore(rows[1..], dateOf, cutoff);
        AscendingTail(rows, dateOf);
        SortedKeepsPrefix(rows[1..], dateOf, cutoff);
        KeepOnOrBeforeCons(rows, dateOf, cutoff);
        PrefixOfTail(rows, rest);
      } else {
        AscendingAfterCutoff(rows, dateOf, cutoff);
      }
    }
  }

  /** On 'YYYY-MM-DD' dates the cut keeps exactly the records dated on or before the cutoff day. */
  lemma KeepOnOrBeforeChronological<R(!new)>(rows: seq<R>, dateOf: R -> string, cutoff: string, x: R)
    requires IsIsoDate(cutoff)
    requires forall i :: 0 <= i < |rows| ==> IsIsoDate(dateOf(rows[i]))
    ensures x in KeepOnOrBefore(rows, dateOf, cutoff) <==>
      x in rows && DateKey(dateOf(x)) <= DateKey(cutoff)
  {
    if x in rows {
      IsoDateOrder(dateOf(x), cutoff);
    }
  }

  /** make_graph: both panels cut with the same cutoff, the figure titled with the stock name. */
  function MakeGraph(prices: seq<PriceRow>, revenue: seq<RevenueRow>, stock: string, cutoff: string): (g: Graph)
    ensures g.title == stock
    ensures forall p :: p in g.prices <==> p in prices && LexLeq(p.date, cutoff)
    ensures forall x :: x in g.revenue <==> x in revenue && LexLeq(x.date, cutoff)
    ensures |g.prices| <= |prices| && |g.revenue| <= |revenue|
  {
    Graph(stock, KeepOnOrBefore(prices, PriceDate, cutoff), KeepOnOrBefore(revenue, RevenueDate, cutoff))
  }
}
