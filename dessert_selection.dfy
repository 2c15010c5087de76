/**
 * What `determineDessertToShow` computes, stated as functions on the catalog.
 *
 * Starting from the entry at `startIndex % |desserts|`, the rule walks the
 * catalog from `startIndex` on and keeps every entry whose threshold the sold
 * count meets, stopping at the first one it does not meet. The functions here
 * describe that result by the run it ends, and the lemmas relate it to a scan
 * without an early exit and to larger sold counts.
 */
module DessertSelection {
  import opened DessertData

  /** Thresholds never decrease along the catalog. */
  ghost predicate ThresholdsAscending(desserts: seq<Dessert>)
  {
    forall i, j :: 0 <= i <= j < |desserts| ==>
      desserts[i].startProductionAmount <= desserts[j].startProductionAmount
  }

  /** The catalog the application ships: non-empty, the first entry on sale
      from the start, and thresholds strictly increasing. */
  ghost predicate ValidCatalog(desserts: seq<Dessert>)
  {
    && |desserts| > 0
    && desserts[0].startProductionAmount == 0
    && forall i, j :: 0 <= i < j < |desserts| ==>
         desserts[i].startProductionAmount < desserts[j].startProductionAmount
  }

  /** The end of the run of entries from `start` on whose thresholds `sold`
      meets; RunEndCloses states what that means. */
  function RunEnd(sold: int, desserts: seq<Dessert>, start: nat): (r: nat)
    ensures start <= r
    ensures r == start || r <= |desserts|
    decreases |desserts| - start
  {
    if start >= |desserts| || sold < desserts[start].startProductionAmount then start
    else RunEnd(sold, desserts, start + 1)
  }

  /** Every entry in [start, RunEnd) has its threshold met, and the entry at
      RunEnd, if there is one, does not. */
  lemma {:induction false} RunEndCloses(sold: int, desserts: seq<Dessert>, start: nat)
    ensures forall k :: start <= k < RunEnd(sold, desserts, start) ==>
              k < |desserts| && desserts[k].startProductionAmount <= sold
    ensures RunEnd(sold, desserts, start) < |desserts| ==>
              sold < desserts[RunEnd(sold, desserts, start)].startProductionAmount
    decreases |desserts| - start
  {
    if start < |desserts| && desserts[start].startProductionAmount <= sold {
      var r := RunEnd(sold, desserts, start + 1);
      assert RunEnd(sold, desserts, start) == r;
      RunEndCloses(sold, desserts, start + 1);
      forall k | start <= k < r
        ensures k < |desserts| && desserts[k].startProductionAmount <= sold
      {
      }
    } else {
      assert RunEnd(sold, desserts, start) == start;
    }
  }

  /** Any position that closes the run from `start` is the one RunEnd finds. */
  lemma RunEndUnique(sold: int, desserts: seq<Dessert>, start: nat, j: nat)
    requires start <= j && (j == start || j <= |desserts|)
    requires forall k :: start <= k < j ==> desserts[k].startProductionAmount <= sold
    requires j < |desserts| ==> sold < desserts[j].startProductionAmount
    ensures RunEnd(sold, desserts, start) == j
  {
    RunEndCloses(sold, desserts, start);
  }

  /** The catalog position of the dessert shown for `sold` sales on a line
      that starts at `start`: the last entry of the run of met thresholds,
      or the initial pick `start % |desserts|` when that run is empty.
      SelectedIndexIsRunLast states what that means. */
  function SelectedIndex(sold: int, desserts: seq<Dessert>, start: nat): (k: nat)
    requires |desserts| > 0
    ensures k < |desserts|
    ensures k == start % |desserts| || start <= k
  {
    var e := RunEnd(sold, desserts, start);
    if e == start then start % |desserts| else e - 1
  }

  /** The shown position is the initial pick when `startIndex` is past the
      catalog or its own threshold is not met; otherwise it is the last entry
      of the run of met thresholds from `start`. */
  lemma SelectedIndexIsRunLast(sold: int, desserts: seq<Dessert>, start: nat)
    requires |desserts| > 0
    ensures var k := SelectedIndex(sold, desserts, start);
            && ((start >= |desserts| || sold < desserts[start].startProductionAmount) ==>
                  k == start % |desserts|)
            && (start < |desserts| && desserts[start].startProductionAmount <= sold ==>
                  && start <= k
                  && (forall i :: start <= i <= k ==> desserts[i].startProductionAmount <= sold)
                  && (k + 1 < |desserts| ==> sold < desserts[k + 1].startProductionAmount))
  {
    RunEndCloses(sold, desserts, start);
  }

  /** The dessert shown for `sold` sales on a line that starts at `start`:
      its threshold is met, unless it is the initial pick. */
  function Selected(sold: int, desserts: seq<Dessert>, start: nat): (d: Dessert)
    requires |desserts| > 0
    ensures d.startProductionAmount <= sold || d == desserts[start % |desserts|]
  {
    RunEndCloses(sold, desserts, start);
    desserts[SelectedIndex(sold, desserts, start)]
  }

  /** A scan of every entry from `i` to the end that keeps the last one whose
      threshold `sold` meets, without stopping early. */
  function LastMatch(sold: int, desserts: seq<Dessert>, i: nat, picked: Dessert): (d: Dessert)
    decreases |desserts| - i
  {
    if i >= |desserts| then picked
    else LastMatch(sold, desserts, i + 1,
                   if desserts[i].startProductionAmount <= sold then desserts[i] else picked)
  }

  /** Once no remaining threshold is met, the full scan keeps what it holds. */
  lemma {:induction false} LastMatchNoneLeft(sold: int, desserts: seq<Dessert>, i: nat, picked: Dessert)
    requires forall k :: i <= k < |desserts| ==> sold < desserts[k].startProductionAmount
    ensures LastMatch(sold, desserts, i, picked) == picked
    decreases |desserts| - i
  {
    if i < |desserts| {
      LastMatchNoneLeft(sold, desserts, i + 1, picked);
    }
  }

  /** The full scan, part-way through the run of met thresholds, ends on the
      same dessert as the early-exit rule. */
  lemma {:induction false} LastMatchFromRun(sold: int, desserts: seq<Dessert>, start: nat, i: nat, picked: Dessert)
    requires |desserts| > 0 && ThresholdsAscending(desserts)
    requires start <= i <= RunEnd(sold, desserts, start)
    requires picked == if i == start then desserts[start % |desserts|] else desserts[i - 1]
    ensures LastMatch(sold, desserts, i, picked) == Selected(sold, desserts, start)
    decreases |desserts| - i
  {
    var e := RunEnd(sold, desserts, start);
    RunEndCloses(sold, desserts, start);
    if i == e {
      forall k | i <= k < |desserts|
        ensures sold < desserts[k].startProductionAmount
      {
        assert desserts[i].startProductionAmount <= desserts[k].startProductionAmount;
      }
      LastMatchNoneLeft(sold, desserts, i, picked);
    } else {
      LastMatchFromRun(sold, desserts, start, i + 1, desserts[i]);
    }
  }

  /** With ascending thresholds, stopping at the first unmet threshold gives
      the same dessert as scanning the whole catalog from `start` and keeping
      the last entry whose threshold is met. */
  lemma EarlyExitMatchesFullScan(sold: int, desserts: seq<Dessert>, start: nat)
    requires |desserts| > 0 && ThresholdsAscending(desserts)
    ensures LastMatch(sold, desserts, start, desserts[start % |desserts|]) == Selected(sold, desserts, start)
  {
    LastMatchFromRun(sold, desserts, start, start, desserts[start % |desserts|]);
  }

  /** Without ascending thresholds the two scans differ: with thresholds
      0, 5, 3 and four sales, the early exit stops at the second entry and
      keeps the first, the full scan goes on to the third. */
  lemma EarlyExitNeedsAscendingThresholds()
    ensures var desserts := [Dessert(10, 1, 0), Dessert(11, 2, 5), Dessert(12, 3, 3)];
            && !ThresholdsAscending(desserts)
            && Selected(4, desserts, 0) == desserts[0]
            && LastMatch(4, desserts, 0, desserts[0]) == desserts[2]
  {
    var desserts := [Dessert(10, 1, 0), Dessert(11, 2, 5), Dessert(12, 3, 3)];
    RunEndUnique(4, desserts, 0, 1);
    assert desserts[1].startProductionAmount > desserts[2].startProductionAmount;
  }

  /** More sales never shorten the run of met thresholds. */
  lemma RunEndMonotone(s1: int, s2: int, desserts: seq<Dessert>, start: nat)
    requires s1 <= s2
    ensures RunEnd(s1, desserts, start) <= RunEnd(s2, desserts, start)
  {
    RunEndCloses(s1, desserts, start);
    RunEndCloses(s2, desserts, start);
  }

  /** More sales never move a line back to an earlier catalog position.
      This holds for any catalog, sorted or not. */
  lemma SelectedIndexMonotone(s1: int, s2: int, desserts: seq<Dessert>, start: nat)
    requires |desserts| > 0 && s1 <= s2
    ensures SelectedIndex(s1, desserts, start) <= SelectedIndex(s2, desserts, start)
  {
    RunEndMonotone(s1, s2, desserts, start);
    if start < |desserts| {
      assert start % |desserts| == start;
    }
  }

  /** With ascending thresholds, more sales never show a dessert with a lower
      threshold. */
  lemma SelectedThresholdMonotone(s1: int, s2: int, desserts: seq<Dessert>, start: nat)
    requires |desserts| > 0 && ThresholdsAscending(desserts) && s1 <= s2
    ensures Selected(s1, desserts, start).startProductionAmount
         <= Selected(s2, desserts, start).startProductionAmount
  {
    SelectedIndexMonotone(s1, s2, desserts, start);
  }
}
