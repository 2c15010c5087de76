/**
 * The immutable sales record of the dessert clicker and the catalog entries it
 * is priced from.
 *
 * Every field of the record is read-only: a record never changes, a new one is
 * built from it by a copy that replaces the named fields and keeps all others,
 * which is exactly Dafny's datatype update `s.(field := value)`.
 */
module DessertData {

  /** A catalog entry: the image shown for it, its price, and how many sales of
      a line are needed before it becomes that line's displayed dessert. */
  datatype Dessert = Dessert(imageId: int, price: int, startProductionAmount: int)

  /** One snapshot of the two sales lines and the catalog they are priced from. */
  datatype DessertDataClass = DessertDataClass(
    // First dessert line
    firstDessertIndex: int,
    firstDessertsSold: int,
    firstDessertPrice: int,
    firstDessertImageId: int,
    // Second dessert line
    secondDessertIndex: int,
    secondDessertsSold: int,
    secondDessertPrice: int,
    secondDessertImageId: int,
    // Total revenue from both lines
    revenue: int,
    desserts: seq<Dessert>)

  const DefaultFirstDessertIndex: int := 0
  const DefaultSecondDessertIndex: int := 1
  const DefaultDessertsSold: int := 0
  const DefaultRevenue: int := 0

  /** The record built with every argument that has a default left out.
      The price and image defaults read the application-wide catalog
      `dessertList` at positions 0 and 1, so they need at least two entries;
      `desserts` has no default and is always supplied. */
  function WithDefaults(dessertList: seq<Dessert>, desserts: seq<Dessert>): (r: DessertDataClass)
    requires |dessertList| >= 2
    ensures r.firstDessertIndex == 0 && r.secondDessertIndex == 1
    ensures r.firstDessertsSold == 0 && r.secondDessertsSold == 0 && r.revenue == 0
    ensures r.firstDessertPrice == dessertList[0].price && r.firstDessertImageId == dessertList[0].imageId
    ensures r.secondDessertPrice == dessertList[1].price && r.secondDessertImageId == dessertList[1].imageId
    ensures r.desserts == desserts
  {
    DessertDataClass(
      firstDessertIndex := DefaultFirstDessertIndex,
      firstDessertsSold := DefaultDessertsSold,
      firstDessertPrice := dessertList[0].price,
      firstDessertImageId := dessertList[0].imageId,
      secondDessertIndex := DefaultSecondDessertIndex,
      secondDessertsSold := DefaultDessertsSold,
      secondDessertPrice := dessertList[1].price,
      secondDessertImageId := dessertList[1].imageId,
      revenue := DefaultRevenue,
      desserts := desserts)
  }

  /** The number of desserts sold over both lines, as the screen and the
      shared summary report it: with counts that never go negative, it is
      at least each line's own count. */
  function DessertsSold(s: DessertDataClass): (n: int)
    ensures s.firstDessertsSold >= 0 && s.secondDessertsSold >= 0 ==>
              n >= s.firstDessertsSold && n >= s.secondDessertsSold
  {
    s.firstDessertsSold + s.secondDessertsSold
  }
}
