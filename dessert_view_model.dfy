/**
 * The sales state machine of the dessert clicker.
 *
 * `DessertSharingViewModel` holds the current `DessertDataClass` snapshot and
 * replaces it with a copy on every click. A click on a line adds one sale to
 * that line, adds the price shown before the click to the revenue, and shows
 * the dessert that the new sold count selects, scanning the shared catalog
 * from position 0 for the first line and from position 1 for the second.
 */
module DessertViewModel {
  import opened DessertData
  import opened DessertSelection

  /** The two sales lines. */
  datatype Line = First | Second

  /** The snapshot the view model starts from, for the application catalog
      `dessertList`: nothing sold, no revenue, the first line showing entry 0
      and the second entry `1 % |dessertList|`. Indices keep their defaults. */
  function InitialState(dessertList: seq<Dessert>): (s: DessertDataClass)
    requires |dessertList| > 0
    ensures s.revenue == 0 && s.firstDessertsSold == 0 && s.secondDessertsSold == 0
    ensures s.firstDessertIndex == 0 && s.secondDessertIndex == 1
    ensures s.firstDessertPrice == dessertList[0].price
    ensures s.firstDessertImageId == dessertList[0].imageId
    ensures |dessertList| == 1 ==>
              s.secondDessertPrice == dessertList[0].price && s.secondDessertImageId == dessertList[0].imageId
    ensures |dessertList| >= 2 ==>
              s.secondDessertPrice == dessertList[1].price && s.secondDessertImageId == dessertList[1].imageId
    ensures s.desserts == dessertList
    ensures |dessertList| >= 2 ==> s == WithDefaults(dessertList, dessertList)
  {
    DessertDataClass(
      firstDessertIndex := DefaultFirstDessertIndex,
      firstDessertsSold := 0,
      firstDessertPrice := dessertList[0].price,
      firstDessertImageId := dessertList[0].imageId,
      secondDessertIndex := DefaultSecondDessertIndex,
      secondDessertsSold := 0,
      secondDessertPrice := dessertList[1 % |dessertList|].price,
      secondDessertImageId := dessertList[1 % |dessertList|].imageId,
      revenue := 0,
      desserts := dessertList)
  }

  /** The first line shows the price and image of the dessert its sold count
      selects from catalog position 0. */
  ghost predicate FirstShown(s: DessertDataClass)
  {
    && |s.desserts| > 0
    && s.firstDessertPrice == Selected(s.firstDessertsSold, s.desserts, 0).price
    && s.firstDessertImageId == Selected(s.firstDessertsSold, s.desserts, 0).imageId
  }

  /** The second line shows the price and image of the dessert its sold count
      selects from catalog position 1. */
  ghost predicate SecondShown(s: DessertDataClass)
  {
    && |s.desserts| > 0
    && s.secondDessertPrice == Selected(s.secondDessertsSold, s.desserts, 1).price
    && s.secondDessertImageId == Selected(s.secondDessertsSold, s.desserts, 1).imageId
  }

  /** The copy a first-dessert click makes of snapshot `s`. */
  function FirstClicked(s: DessertDataClass): (r: DessertDataClass)
    requires |s.desserts| > 0
    ensures r.firstDessertsSold == s.firstDessertsSold + 1
    ensures r.revenue == s.revenue + s.firstDessertPrice
    ensures FirstShown(r)
    ensures r.(firstDessertsSold := s.firstDessertsSold, firstDessertPrice := s.firstDessertPrice,
               firstDessertImageId := s.firstDessertImageId, revenue := s.revenue) == s
  {
    var newDessertsSold := s.firstDessertsSold + 1;
    var dessertToShow := Selected(newDessertsSold, s.desserts, 0);
    s.(revenue := s.revenue + s.firstDessertPrice,
       firstDessertsSold := newDessertsSold,
       firstDessertImageId := dessertToShow.imageId,
       firstDessertPrice := dessertToShow.price)
  }

  /** The copy a second-dessert click makes of snapshot `s`. */
  function SecondClicked(s: DessertDataClass): (r: DessertDataClass)
    requires |s.desserts| > 0
    ensures r.secondDessertsSold == s.secondDessertsSold + 1
    ensures r.revenue == s.revenue + s.secondDessertPrice
    ensures SecondShown(r)
    ensures r.(secondDessertsSold := s.secondDessertsSold, secondDessertPrice := s.secondDessertPrice,
               secondDessertImageId := s.secondDessertImageId, revenue := s.revenue) == s
  {
    var newDessertsSold := s.secondDessertsSold + 1;
    var dessertToShow := Selected(newDessertsSold, s.desserts, 1);
    s.(revenue := s.revenue + s.secondDessertPrice,
       secondDessertsSold := newDessertsSold,
       secondDessertImageId := dessertToShow.imageId,
       secondDessertPrice := dessertToShow.price)
  }

  /** The copy a click on `line` makes of snapshot `s`. */
  function Clicked(s: DessertDataClass, line: Line): (r: DessertDataClass)
    requires |s.desserts| > 0
    ensures r.desserts == s.desserts
    ensures DessertsSold(r) == DessertsSold(s) + 1
  {
    match line
    case First => FirstClicked(s)
    case Second => SecondClicked(s)
  }

  /** The snapshot after the clicks in `clicks`, in order. */
  function Replay(s: DessertDataClass, clicks: seq<Line>): (r: DessertDataClass)
    requires |s.desserts| > 0
    ensures r.desserts == s.desserts
    ensures DessertsSold(r) == DessertsSold(s) + |clicks|
    decreases |clicks|
  {
    if clicks == [] then s else Replay(Clicked(s, clicks[0]), clicks[1..])
  }

  /** How many of `clicks` are on `line`. */
  function Count(clicks: seq<Line>, line: Line): (n: nat)
    ensures n <= |clicks|
  {
    if clicks == [] then 0
    else (if clicks[0] == line then 1 else 0) + Count(clicks[1..], line)
  }

  /** The revenue from `n` sales on the line that starts at catalog position
      `start`, when `sold` desserts of it have been sold: each sale is charged
      the price shown before it. */
  function TierPriceSum(desserts: seq<Dessert>, start: nat, sold: int, n: nat): (sum: int)
    requires |desserts| > 0
    decreases n
  {
    if n == 0 then 0
    else Selected(sold, desserts, start).price + TierPriceSum(desserts, start, sold + 1, n - 1)
  }

  /** Peeling the first sale off a run of sales. */
  lemma TierPriceSumStep(desserts: seq<Dessert>, start: nat, sold: int, n: nat)
    requires |desserts| > 0
    ensures TierPriceSum(desserts, start, sold, n + 1)
         == Selected(sold, desserts, start).price + TierPriceSum(desserts, start, sold + 1, n)
  {
  }

  /** The two clicks change disjoint parts of the snapshot apart from the
      revenue, and add to the revenue independently, so their order does not
      matter. */
  lemma ClicksCommute(s: DessertDataClass)
    requires |s.desserts| > 0
    ensures FirstClicked(SecondClicked(s)) == SecondClicked(FirstClicked(s))
  {
  }

  /** A click keeps both lines consistent with their sold counts. */
  lemma ClickedKeepsShown(s: DessertDataClass, line: Line)
    requires FirstShown(s) && SecondShown(s)
    ensures FirstShown(Clicked(s, line)) && SecondShown(Clicked(s, line))
  {
  }

  /** The initial snapshot of a catalog that starts at threshold 0 and
      strictly increases shows on each line what its sold count selects. */
  lemma InitialStateShown(dessertList: seq<Dessert>)
    requires ValidCatalog(dessertList)
    ensures FirstShown(InitialState(dessertList)) && SecondShown(InitialState(dessertList))
  {
    if |dessertList| >= 2 {
      assert 0 < dessertList[1].startProductionAmount;
      RunEndUnique(0, dessertList, 0, 1);
      RunEndUnique(0, dessertList, 1, 1);
    } else {
      RunEndUnique(0, dessertList, 0, 1);
    }
  }

  /** Any sequence of clicks keeps both lines consistent with their sold
      counts. */
  lemma {:induction false} ReplayKeepsShown(s: DessertDataClass, clicks: seq<Line>)
    requires FirstShown(s) && SecondShown(s)
    ensures FirstShown(Replay(s, clicks)) && SecondShown(Replay(s, clicks))
    decreases |clicks|
  {
    if clicks != [] {
      ClickedKeepsShown(s, clicks[0]);
      ReplayKeepsShown(Clicked(s, clicks[0]), clicks[1..]);
    }
  }

  /** A first-dessert click on a consistent snapshot: the first line sells
      one more, the second line keeps its count, and the sale is charged the
      price the first line's sold count selected before the click. */
  lemma FirstClickedSale(s: DessertDataClass)
    requires FirstShown(s) && SecondShown(s)
    ensures var t := FirstClicked(s);
            && t.desserts == s.desserts
            && FirstShown(t) && SecondShown(t)
            && t.firstDessertsSold == s.firstDessertsSold + 1
            && t.secondDessertsSold == s.secondDessertsSold
            && t.revenue == s.revenue + Selected(s.firstDessertsSold, s.desserts, 0).price
  {
  }

  /** A second-dessert click on a consistent snapshot: the second line sells
      one more, the first line keeps its count, and the sale is charged the
      price the second line's sold count selected before the click. */
  lemma SecondClickedSale(s: DessertDataClass)
    requires FirstShown(s) && SecondShown(s)
    ensures var t := SecondClicked(s);
            && t.desserts == s.desserts
            && FirstShown(t) && SecondShown(t)
            && t.firstDessertsSold == s.firstDessertsSold
            && t.secondDessertsSold == s.secondDessertsSold + 1
            && t.revenue == s.revenue + Selected(s.secondDessertsSold, s.desserts, 1).price
  {
  }

  /** Replaying any interleaving of clicks: each line's sold count grows by
      its own number of clicks. */
  lemma {:induction false} ReplaySold(s: DessertDataClass, clicks: seq<Line>)
    requires |s.desserts| > 0
    ensures Replay(s, clicks).firstDessertsSold == s.firstDessertsSold + Count(clicks, First)
    ensures Replay(s, clicks).secondDessertsSold == s.secondDessertsSold + Count(clicks, Second)
    decreases |clicks|
  {
    if clicks != [] {
      var t, rest := Clicked(s, clicks[0]), clicks[1..];
      assert Replay(s, clicks) == Replay(t, rest);
      ReplaySold(t, rest);
    }
  }

  /** Replaying any interleaving of clicks from a consistent snapshot: the
      revenue grows by the prices of each line's own sales, whatever the
      interleaving. */
  lemma {:induction false} ReplayRevenue(s: DessertDataClass, clicks: seq<Line>)
    requires FirstShown(s) && SecondShown(s)
    ensures Replay(s, clicks).revenue == s.revenue
              + TierPriceSum(s.desserts, 0, s.firstDessertsSold, Count(clicks, First))
              + TierPriceSum(s.desserts, 1, s.secondDessertsSold, Count(clicks, Second))
    decreases |clicks|, 1
  {
    if clicks == [] {
      assert Count(clicks, First) == 0 && Count(clicks, Second) == 0;
    } else if clicks[0] == First {
      ReplayRevenueFirst(s, clicks);
    } else {
      ReplayRevenueSecond(s, clicks);
    }
  }

  /** The step of ReplayRevenue for a replay that starts with a first-line
      click. */
  lemma {:induction false} ReplayRevenueFirst(s: DessertDataClass, clicks: seq<Line>)
    requires FirstShown(s) && SecondShown(s)
    requires clicks != [] && clicks[0] == First
    ensures Replay(s, clicks).revenue == s.revenue
              + TierPriceSum(s.desserts, 0, s.firstDessertsSold, Count(clicks, First))
              + TierPriceSum(s.desserts, 1, s.secondDessertsSold, Count(clicks, Second))
    decreases |clicks|, 0
  {
    var t, rest := FirstClicked(s), clicks[1..];
    var d, a, b := s.desserts, s.firstDessertsSold, s.secondDessertsSold;
    var nA, nB := Count(rest, First), Count(rest, Second);
    assert Replay(s, clicks) == Replay(t, rest);
    assert Count(clicks, First) == nA + 1 && Count(clicks, Second) == nB;
    FirstClickedSale(s);
    ReplayRevenue(t, rest);
    TierPriceSumStep(d, 0, a, nA);
  }

  /** The step of ReplayRevenue for a replay that starts with a second-line
      click. */
  lemma {:induction false} ReplayRevenueSecond(s: DessertDataClass, clicks: seq<Line>)
    requires FirstShown(s) && SecondShown(s)
    requires clicks != [] && clicks[0] == Second
    ensures Replay(s, clicks).revenue == s.revenue
              + TierPriceSum(s.desserts, 0, s.firstDessertsSold, Count(clicks, First))
              + TierPriceSum(s.desserts, 1, s.secondDessertsSold, Count(clicks, Second))
    decreases |clicks|, 0
  {
    var t, rest := SecondClicked(s), clicks[1..];
    var d, a, b := s.desserts, s.firstDessertsSold, s.secondDessertsSold;
    var nA, nB := Count(rest, First), Count(rest, Second);
    assert Replay(s, clicks) == Replay(t, rest);
    assert Count(clicks, First) == nA && Count(clicks, Second) == nB + 1;
    SecondClickedSale(s);
    ReplayRevenue(t, rest);
    TierPriceSumStep(d, 1, b, nB);
  }

  /** Clicks on the second line alone leave every first-line field as it was. */
  lemma {:induction false} SecondClicksKeepFirstLine(s: DessertDataClass, clicks: seq<Line>)
    requires |s.desserts| > 0
    requires forall i :: 0 <= i < |clicks| ==> clicks[i] == Second
    ensures var r := Replay(s, clicks);
            && r.firstDessertIndex == s.firstDessertIndex
            && r.firstDessertsSold == s.firstDessertsSold
            && r.firstDessertPrice == s.firstDessertPrice
            && r.firstDessertImageId == s.firstDessertImageId
    decreases |clicks|
  {
    if clicks != [] {
      SecondClicksKeepFirstLine(Clicked(s, clicks[0]), clicks[1..]);
    }
  }

  /** Clicks on the first line alone leave every second-line field as it was. */
  lemma {:induction false} FirstClicksKeepSecondLine(s: DessertDataClass, clicks: seq<Line>)
    requires |s.desserts| > 0
    requires forall i :: 0 <= i < |clicks| ==> clicks[i] == First
    ensures var r := Replay(s, clicks);
            && r.secondDessertIndex == s.secondDessertIndex
            && r.secondDessertsSold == s.secondDessertsSold
            && r.secondDessertPrice == s.secondDessertPrice
            && r.secondDessertImageId == s.secondDessertImageId
    decreases |clicks|
  {
    if clicks != [] {
      FirstClicksKeepSecondLine(Clicked(s, clicks[0]), clicks[1..]);
    }
  }

  /** Clicks all on one line count only for that line. */
  lemma {:induction false} CountOneLine(clicks: seq<Line>, line: Line, other: Line)
    requires line != other
    requires forall i :: 0 <= i < |clicks| ==> clicks[i] == line
    ensures Count(clicks, line) == |clicks| && Count(clicks, other) == 0
    decreases |clicks|
  {
    if clicks != [] {
      CountOneLine(clicks[1..], line, other);
    }
  }

  /** On a catalog whose second threshold is 5, the first line shows entry 0
      for up to four sales and entry 1 from the fifth, so its first five
      sales are all charged entry 0's price. */
  lemma FirstFiveSalePrices(desserts: seq<Dessert>)
    requires ValidCatalog(desserts) && |desserts| >= 2
    requires desserts[1].startProductionAmount == 5
    ensures TierPriceSum(desserts, 0, 0, 5) == 5 * desserts[0].price
    ensures Selected(5, desserts, 0) == desserts[1]
  {
    var d := desserts;
    forall sold | 0 <= sold < 5
      ensures Selected(sold, d, 0) == d[0]
    {
      RunEndUnique(sold, d, 0, 1);
    }
    RunEndUnique(5, d, 0, 2);
    TierPriceSumStep(d, 0, 4, 0);
    TierPriceSumStep(d, 0, 3, 1);
    TierPriceSumStep(d, 0, 2, 2);
    TierPriceSumStep(d, 0, 1, 3);
    TierPriceSumStep(d, 0, 0, 4);
  }

  /** Five first-line clicks from the initial snapshot of a catalog whose
      second threshold is 5 (thresholds 0, 5, 10, 20, 50, say): the line has
      sold 5 and shows the threshold-5 dessert, and the revenue is five times
      the first tier's price, since each sale is charged the price shown
      before it. */
  lemma FiveFirstSales(desserts: seq<Dessert>, clicks: seq<Line>)
    requires ValidCatalog(desserts) && |desserts| >= 2
    requires desserts[1].startProductionAmount == 5
    requires |clicks| == 5 && forall i :: 0 <= i < |clicks| ==> clicks[i] == First
    ensures var r := Replay(InitialState(desserts), clicks);
            && r.firstDessertsSold == 5
            && r.firstDessertPrice == desserts[1].price
            && r.firstDessertImageId == desserts[1].imageId
            && r.revenue == 5 * desserts[0].price
  {
    var s := InitialState(desserts);
    InitialStateShown(desserts);
    CountOneLine(clicks, First, Second);
    ReplaySold(s, clicks);
    ReplayRevenue(s, clicks);
    ReplayKeepsShown(s, clicks);
    FirstFiveSalePrices(desserts);
  }

  /** The view model: it owns the current snapshot and replaces it with a
      copy on every click. */
  class DessertSharingViewModel {
    var uiState: DessertDataClass

    /** The catalog is never empty: the initial snapshot already reads its
        first entry, and no copy changes it. */
    ghost predicate Valid()
      reads this
    {
      |uiState.desserts| > 0
    }

    constructor (dessertList: seq<Dessert>)
      requires |dessertList| > 0
      ensures Valid() && uiState == InitialState(dessertList)
    {
      uiState := InitialState(dessertList);
    }

    /** A click on the first dessert. */
    method OnFirstDessertClicked()
      requires Valid()
      modifies this
      ensures Valid() && uiState == FirstClicked(old(uiState))
      ensures uiState.firstDessertsSold == old(uiState.firstDessertsSold) + 1
      ensures uiState.revenue == old(uiState.revenue) + old(uiState.firstDessertPrice)
      ensures uiState.firstDessertPrice == Selected(uiState.firstDessertsSold, uiState.desserts, 0).price
      ensures uiState.firstDessertImageId == Selected(uiState.firstDessertsSold, uiState.desserts, 0).imageId
      ensures uiState.secondDessertsSold == old(uiState.secondDessertsSold)
      ensures uiState.secondDessertPrice == old(uiState.secondDessertPrice)
      ensures uiState.secondDessertImageId == old(uiState.secondDessertImageId)
    {
      var currentState := uiState;
      var newDessertsSold := currentState.firstDessertsSold + 1;
      var dessertToShow := DetermineDessertToShow(newDessertsSold, currentState.desserts, 0);
      uiState := currentState.(
        revenue := currentState.revenue + currentState.firstDessertPrice,
        firstDessertsSold := newDessertsSold,
        firstDessertImageId := dessertToShow.imageId,
        firstDessertPrice := dessertToShow.price);
    }

    /** A click on the second dessert. */
    method OnSecondDessertClicked()
      requires Valid()
      modifies this
      ensures Valid() && uiState == SecondClicked(old(uiState))
      ensures uiState.secondDessertsSold == old(uiState.secondDessertsSold) + 1
      ensures uiState.revenue == old(uiState.revenue) + old(uiState.secondDessertPrice)
      ensures uiState.secondDessertPrice == Selected(uiState.secondDessertsSold, uiState.desserts, 1).price
      ensures uiState.secondDessertImageId == Selected(uiState.secondDessertsSold, uiState.desserts, 1).imageId
      ensures uiState.firstDessertsSold == old(uiState.firstDessertsSold)
      ensures uiState.firstDessertPrice == old(uiState.firstDessertPrice)
      ensures uiState.firstDessertImageId == old(uiState.firstDessertImageId)
    {
      var currentState := uiState;
      var newDessertsSold := currentState.secondDessertsSold + 1;
      var dessertToShow := DetermineDessertToShow(newDessertsSold, currentState.desserts, 1);
      uiState := currentState.(
        revenue := currentState.revenue + currentState.secondDessertPrice,
        secondDessertsSold := newDessertsSold,
        secondDessertImageId := dessertToShow.imageId,
        secondDessertPrice := dessertToShow.price);
    }

    /** The dessert to show for `dessertsSold` sales on a line that starts at
        catalog position `startIndex`: a scan from `startIndex` that keeps
        each entry whose threshold is met and stops at the first one that is
        not. */
    static method DetermineDessertToShow(dessertsSold: int, desserts: seq<Dessert>, startIndex: nat)
      returns (dessertToShow: Dessert)
      requires |desserts| > 0
      ensures dessertToShow == Selected(dessertsSold, desserts, startIndex)
    {
      dessertToShow := desserts[startIndex % |desserts|];
      var i := startIndex;
      while i < |desserts|
        invariant startIndex <= i && (i == startIndex || i <= |desserts|)
        invariant forall k :: startIndex <= k < i ==> desserts[k].startProductionAmount <= dessertsSold
        invariant dessertToShow == if i == startIndex then desserts[startIndex % |desserts|] else desserts[i - 1]
      {
        var dessert := desserts[i];
        if dessertsSold >= dessert.startProductionAmount {
          dessertToShow := dessert;
        } else {
          break;
        }
        i := i + 1;
      }
      RunEndUnique(dessertsSold, desserts, startIndex, i);
    }
  }
}
