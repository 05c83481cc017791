/**
 * The depth search: walk one side of the order book best-first, keep a
 * running total of `amount * count`, and take the price level of the first
 * entry at which the total reaches a tenth of the traded volume.
 */
module Depth {

  import opened Wrappers
  import opened Market

  /** The share of the traded volume the book must absorb at the chosen level. */
  const DepthParticipation: real := 0.1

  /** The volume an entry adds to the running total. */
  function Notional(e: BookEntry): (notional: real)
  {
    e.amount * e.count
  }

  /** The running total over a run of entries, accumulated best-first. */
  function Cumulative(entries: seq<BookEntry>): (total: real)
  {
    if entries == [] then 0.0
    else Cumulative(entries[..|entries| - 1]) + Notional(entries[|entries| - 1])
  }

  /** The running total at entry `k` (inclusive) has reached the threshold. */
  predicate Reaches(entries: seq<BookEntry>, threshold: real, k: nat)
    requires k < |entries|
  {
    Cumulative(entries[..k + 1]) >= threshold
  }

  /** The bids for a BUY, the asks for anything else. */
  function SideEntries(side: Trend, book: OrderBook): (entries: seq<BookEntry>)
  {
    if side == Buy then book.bids else book.asks
  }

  /** The level of the first entry from `i` on whose running total reaches the threshold. */
  function LevelFrom(entries: seq<BookEntry>, threshold: real, i: nat): (r: Option<real>)
    requires i <= |entries|
    ensures r.Some? ==> exists k :: i <= k < |entries| && entries[k].level == r.value
                                    && Reaches(entries, threshold, k)
                                    && forall j :: i <= j < k ==> !Reaches(entries, threshold, j)
    ensures r.None? <==> forall j :: i <= j < |entries| ==> !Reaches(entries, threshold, j)
    decreases |entries| - i
  {
    if i == |entries| then None
    else if Reaches(entries, threshold, i) then Some(entries[i].level)
    else LevelFrom(entries, threshold, i + 1)
  }

  /**
   * The optimal level for `side`: the level of the first entry of that side
   * whose running total reaches a tenth of the traded volume, if any.
   */
  function OptimalLevel(side: Trend, book: OrderBook, tradingVolume: real): (r: Option<real>)
    ensures var entries, threshold := SideEntries(side, book), tradingVolume * DepthParticipation;
            r.Some? ==> exists k :: 0 <= k < |entries| && entries[k].level == r.value
                                    && Reaches(entries, threshold, k)
                                    && forall j :: 0 <= j < k ==> !Reaches(entries, threshold, j)
    ensures var entries, threshold := SideEntries(side, book), tradingVolume * DepthParticipation;
            r.None? <==> forall j :: 0 <= j < |entries| ==> !Reaches(entries, threshold, j)
  {
    LevelFrom(SideEntries(side, book), tradingVolume * DepthParticipation, 0)
  }

  method GetOptimalLevel(side: Trend, book: OrderBook, tradingVolume: real) returns (level: Option<real>)
    ensures level == OptimalLevel(side, book, tradingVolume)
  {
    var entries := if side == Buy then book.bids else book.asks;
    var threshold := tradingVolume * DepthParticipation;
    var total := 0.0;
    for i := 0 to |entries|
      invariant total == Cumulative(entries[..i])
      invariant LevelFrom(entries, threshold, 0) == LevelFrom(entries, threshold, i)
    {
      CumulativeStep(entries, i);
      LevelFromStep(entries, threshold, i);
      total := total + entries[i].amount * entries[i].count;
      if total >= threshold {
        return Some(entries[i].level);
      }
    }
    return None;
  }

  /** One more entry adds its notional to the running total. */
  lemma CumulativeStep(entries: seq<BookEntry>, i: nat)
    requires i < |entries|
    ensures Cumulative(entries[..i + 1]) == Cumulative(entries[..i]) + Notional(entries[i])
  {
    assert entries[..i + 1][..i] == entries[..i];
  }

  /** The search from `i` either stops at entry `i` or moves on to `i + 1`. */
  lemma LevelFromStep(entries: seq<BookEntry>, threshold: real, i: nat)
    requires i < |entries|
    ensures LevelFrom(entries, threshold, i)
            == if Reaches(entries, threshold, i) then Some(entries[i].level) else LevelFrom(entries, threshold, i + 1)
  {
  }

  // ---------------------------------------------------------------------------
  // Properties

  /** With no negative entries the running total never decreases. */
  lemma {:induction false} CumulativeMonotone(entries: seq<BookEntry>, j: nat)
    requires j <= |entries|
    requires forall k :: 0 <= k < |entries| ==> Notional(entries[k]) >= 0.0
    ensures Cumulative(entries[..j]) <= Cumulative(entries)
    decreases |entries|
  {
    if j < |entries| {
      var front := entries[..|entries| - 1];
      assert front[..j] == entries[..j];
      CumulativeMonotone(front, j);
    } else {
      assert entries[..j] == entries;
    }
  }

  /**
   * With no negative entries, the search yields no level exactly when the
   * side is empty or its whole depth stays below the threshold.
   */
  lemma NoLevelIffDepthInsufficient(side: Trend, book: OrderBook, tradingVolume: real)
    requires forall k :: 0 <= k < |SideEntries(side, book)| ==> Notional(SideEntries(side, book)[k]) >= 0.0
    ensures var entries := SideEntries(side, book);
            OptimalLevel(side, book, tradingVolume).None?
            <==> entries == [] || Cumulative(entries) < tradingVolume * DepthParticipation
  {
    var entries := SideEntries(side, book);
    var threshold := tradingVolume * DepthParticipation;
    if entries != [] {
      var last := |entries| - 1;
      assert entries[..last + 1] == entries;
      if Cumulative(entries) < threshold {
        forall j | 0 <= j < |entries|
          ensures !Reaches(entries, threshold, j)
        {
          CumulativeMonotone(entries, j + 1);
        }
      } else {
        assert Reaches(entries, threshold, last);
      }
    }
  }
}
