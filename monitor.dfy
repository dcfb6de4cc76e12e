/**
 * The decision pipeline of the competitor price monitor page: validate the
 * stay window, select the sheet rows of one unit and room type, decide the
 * party size of each scraper request, and assemble one result record per
 * selected row with its price per night.
 *
 * The scraping service is the parameter `scrape`: given a request it yields
 * the dataset items of the finished run, possibly none. Money is in euro
 * cents.
 */
module Monitor {
  import opened Wrappers
  import opened Calendar

  /** One row of the competitor sheet. */
  datatype PropertyRow = PropertyRow(
    unitName: string,
    roomType: string,
    propertyCategory: string,
    role: string,
    propertyName: string,
    bookingUrl: string)

  /** The party a scraper request asks prices for. */
  datatype Occupancy = Occupancy(adults: nat, children: nat)

  /** The input of one scraper run. */
  datatype RunInput = RunInput(
    url: string,
    checkIn: Date,
    checkOut: Date,
    adults: nat,
    children: nat,
    currency: string,
    maxListings: nat)

  /**
   * One dataset item of a finished scraper run. `priceTotal` is the item's
   * `price.total` in cents, or `None` when the item carries no such value.
   */
  datatype Item = Item(priceTotal: Option<int>)

  /** One line of the results table; `pricePerNight` is `None` when unresolved. */
  datatype ResultRecord = ResultRecord(
    property: string,
    role: string,
    category: string,
    pricePerNight: Option<int>)

  /** Why a page run ends without a results table. */
  datatype PageError =
    | CheckOutNotAfterCheckIn       // error message, then the page stops
    | NoDataForSelection            // warning message, then the page stops
    | UnknownRoomType(roomType: string)   // the room mapping lookup raises
    | MissingPriceTotal(property: string) // the first item has no `price.total`

  /** What one run of the page ends with. */
  datatype PageOutcome =
    | Failed(error: PageError)
    | AwaitingFetch                 // inputs are fine; the fetch button was not pressed
    | Shown(results: seq<ResultRecord>)

  /** Party size per room type, for categories without a fixed occupancy. */
  const RoomMapping: map<string, Occupancy> := map[
    "double" := Occupancy(2, 0),
    "triple" := Occupancy(3, 0),
    "family" := Occupancy(2, 2)]

  /** The dummy party used for apartments and mobile homes. */
  const SingleOccupant := Occupancy(1, 0)

  const Currency := "EUR"
  const MaxListings := 1

  // ---------------------------------------------------------------------
  // Stay window
  // ---------------------------------------------------------------------

  /**
   * The stay guard and night count: the run goes on only when check-out is
   * strictly after check-in, and then the stay lasts at least one night.
   */
  function StayNights(checkIn: Date, checkOut: Date): (r: Result<nat, PageError>)
    requires Valid(checkIn) && Valid(checkOut)
    ensures r.Failure? <==> AtOrBefore(checkOut, checkIn)
    ensures r.Failure? <==> Ordinal(checkOut) <= Ordinal(checkIn)
    ensures r.Failure? ==> r.error == CheckOutNotAfterCheckIn
    ensures r.Success? ==> r.value >= 1 && Ordinal(checkIn) + r.value == Ordinal(checkOut)
  {
    OrdinalMatchesOrder(checkOut, checkIn);
    if AtOrBefore(checkOut, checkIn) then Failure(CheckOutNotAfterCheckIn)
    else Success(DaysBetween(checkIn, checkOut))
  }

  // ---------------------------------------------------------------------
  // Row selection
  // ---------------------------------------------------------------------

  predicate Matches(row: PropertyRow, unit: string, roomType: string) {
    row.unitName == unit && row.roomType == roomType
  }

  /** The rows of the chosen unit and room type, in sheet order. */
  function Select(rows: seq<PropertyRow>, unit: string, roomType: string): (r: seq<PropertyRow>)
    ensures |r| <= |rows|
    ensures forall row :: row in r ==> Matches(row, unit, roomType)
    ensures forall row :: multiset(r)[row] == if Matches(row, unit, roomType) then multiset(rows)[row] else 0
  {
    if rows == [] then []
    else
      var rest := Select(rows[1..], unit, roomType);
      assert rows == [rows[0]] + rows[1..];
      if Matches(rows[0], unit, roomType) then [rows[0]] + rest else rest
  }

  /** Selecting from two parts of a sheet selects from each part, in order. */
  lemma {:induction false} SelectAppend(a: seq<PropertyRow>, b: seq<PropertyRow>, unit: string, roomType: string)
    ensures Select(a + b, unit, roomType) == Select(a, unit, roomType) + Select(b, unit, roomType)
  {
    if a == [] {
      assert a + b == b;
    } else {
      assert (a + b)[1..] == a[1..] + b;
      SelectAppend(a[1..], b, unit, roomType);
    }
  }

  /** The selection is empty exactly when no row of the sheet matches. */
  lemma SelectEmpty(rows: seq<PropertyRow>, unit: string, roomType: string)
    ensures Select(rows, unit, roomType) == [] <==> forall row :: row in rows ==> !Matches(row, unit, roomType)
  {
  }

  // ---------------------------------------------------------------------
  // Occupancy
  // ---------------------------------------------------------------------

  function LowerChar(c: char): char {
    if 'A' <= c <= 'Z' then (c as int + 32) as char else c
  }

  /** Lower-casing of the ASCII letters of a string. */
  function Lower(s: string): (r: string)
    ensures |r| == |s|
    ensures forall i :: 0 <= i < |r| ==> !('A' <= r[i] <= 'Z')
    ensures forall i :: 0 <= i < |r| ==> r[i] == s[i] || ('A' <= s[i] <= 'Z' && r[i] as int == s[i] as int + 32)
  {
    seq(|s|, i requires 0 <= i < |s| => LowerChar(s[i]))
  }

  /** Categories that always ask for one adult, whatever the room type. */
  predicate HasFixedOccupancy(category: string) {
    category == "apartment" || category == "mobile"
  }

  /**
   * The party for a row of a lower-cased category: one adult for apartments
   * and mobile homes, otherwise the room mapping's entry, and an error when
   * the room type has none.
   */
  function DecideOccupancy(category: string, roomType: string): (r: Result<Occupancy, PageError>)
    ensures HasFixedOccupancy(category) ==> r == Success(Occupancy(1, 0))
    ensures !HasFixedOccupancy(category) && roomType == "double" ==> r == Success(Occupancy(2, 0))
    ensures !HasFixedOccupancy(category) && roomType == "triple" ==> r == Success(Occupancy(3, 0))
    ensures !HasFixedOccupancy(category) && roomType == "family" ==> r == Success(Occupancy(2, 2))
    ensures r.Failure? <==> !HasFixedOccupancy(category) && roomType != "double" && roomType != "triple" && roomType != "family"
    ensures r.Failure? ==> r.error == UnknownRoomType(roomType)
    ensures r.Success? ==> r.value.adults >= 1
  {
    if HasFixedOccupancy(category) then Success(SingleOccupant)
    else if roomType in RoomMapping then Success(RoomMapping[roomType])
    else Failure(UnknownRoomType(roomType))
  }

  /** The scraper request for one selected row. */
  function RequestFor(row: PropertyRow, roomType: string, checkIn: Date, checkOut: Date): (r: Result<RunInput, PageError>)
    ensures r.Failure? <==> DecideOccupancy(Lower(row.propertyCategory), roomType).Failure?
    ensures r.Success? ==>
      && r.value.url == row.bookingUrl
      && r.value.checkIn == checkIn && r.value.checkOut == checkOut
      && Success(Occupancy(r.value.adults, r.value.children)) == DecideOccupancy(Lower(row.propertyCategory), roomType)
      && r.value.currency == "EUR" && r.value.maxListings == 1
  {
    var occupancy :- DecideOccupancy(Lower(row.propertyCategory), roomType);
    Success(RunInput(row.bookingUrl, checkIn, checkOut, occupancy.adults, occupancy.children, Currency, MaxListings))
  }

  // ---------------------------------------------------------------------
  // Price per night
  // ---------------------------------------------------------------------

  function Abs(x: int): nat {
    if x < 0 then -x else x
  }

  /**
   * A stay total divided by the number of nights, rounded to whole cents:
   * the nearest cent, and the even one of two equally near cents.
   */
  function PerNightCents(totalCents: int, nights: int): (ppn: int)
    requires nights >= 1
    ensures 2 * Abs(ppn * nights - totalCents) <= nights
    ensures 2 * Abs(ppn * nights - totalCents) == nights ==> ppn % 2 == 0
  {
    var q := totalCents / nights;
    var rem := totalCents % nights;
    assert totalCents == q * nights + rem;
    assert (q + 1) * nights - totalCents == nights - rem;
    if 2 * rem < nights then q
    else if 2 * rem > nights then q + 1
    else if q % 2 == 0 then q
    else q + 1
  }

  lemma MulGrows(d: int, n: int)
    requires d >= 1 && n >= 1
    ensures d * n >= n
  {
  }

  lemma OnlyUnitFactorFits(d: int, n: int)
    requires d >= 1 && n >= 1 && d * n <= n
    ensures d == 1
  {
  }

  /** No whole number of cents comes closer to the exact per-night value. */
  lemma PerNightIsNearest(totalCents: int, nights: int, c: int)
    requires nights >= 1
    ensures Abs(PerNightCents(totalCents, nights) * nights - totalCents) <= Abs(c * nights - totalCents)
  {
    var p := PerNightCents(totalCents, nights);
    var e := p * nights - totalCents;
    var d := c - p;
    assert c * nights - totalCents == d * nights + e;
    if d >= 1 {
      MulGrows(d, nights);
    } else if d <= -1 {
      MulGrows(-d, nights);
      assert d * nights == -((-d) * nights);
    }
  }

  /** The rounding contract leaves no choice: it determines the cent value. */
  lemma PerNightIsDetermined(totalCents: int, nights: int, c: int)
    requires nights >= 1
    requires 2 * Abs(c * nights - totalCents) <= nights
    requires 2 * Abs(c * nights - totalCents) == nights ==> c % 2 == 0
    ensures c == PerNightCents(totalCents, nights)
  {
    var p := PerNightCents(totalCents, nights);
    if c > p {
      SpreadOfDistinctCents(totalCents, nights, p, c);
    } else if c < p {
      SpreadOfDistinctCents(totalCents, nights, c, p);
    }
  }

  /**
   * Two different cent values cannot both lie within half a night of the
   * total unless they are neighbours on opposite sides of an exact tie.
   */
  lemma SpreadOfDistinctCents(totalCents: int, nights: int, lo: int, hi: int)
    requires nights >= 1 && lo < hi
    requires 2 * Abs(lo * nights - totalCents) <= nights
    requires 2 * Abs(hi * nights - totalCents) <= nights
    ensures hi == lo + 1
    ensures 2 * Abs(lo * nights - totalCents) == nights && 2 * Abs(hi * nights - totalCents) == nights
  {
    var d := hi - lo;
    assert hi * nights - lo * nights == d * nights;
    assert d * nights <= nights;
    OnlyUnitFactorFits(d, nights);
  }

  /** A total that splits evenly over the nights is divided exactly. */
  lemma PerNightExact(totalCents: int, nights: int)
    requires nights >= 1 && totalCents % nights == 0
    ensures PerNightCents(totalCents, nights) * nights == totalCents
  {
  }

  /** A non-negative total never gives a negative price per night. */
  lemma PerNightNonNegative(totalCents: int, nights: int)
    requires nights >= 1 && totalCents >= 0
    ensures PerNightCents(totalCents, nights) >= 0
  {
  }

  /**
   * The price of a row from the items of its scraper run: unresolved when
   * there are none, otherwise the first item's total spread over the nights.
   */
  function PriceFromItems(items: seq<Item>, nights: int, property: string): (r: Result<Option<int>, PageError>)
    requires nights >= 1
    ensures r == Success(None) <==> items == []
    ensures r.Failure? <==> items != [] && items[0].priceTotal.None?
    ensures r.Failure? ==> r.error == MissingPriceTotal(property)
    ensures r.Success? && r.value.Some? ==>
      items != [] && items[0].priceTotal.Some? &&
      2 * Abs(r.value.value * nights - items[0].priceTotal.value) <= nights
  {
    if |items| == 0 then Success(None)
    else match items[0].priceTotal
      case None => Failure(MissingPriceTotal(property))
      case Some(total) => Success(Some(PerNightCents(total, nights)))
  }

  /** The result record of one selected row, or the error that aborts the run. */
  function RecordFor(row: PropertyRow, roomType: string, checkIn: Date, checkOut: Date, nights: int,
                     scrape: RunInput -> seq<Item>): (r: Result<ResultRecord, PageError>)
    requires nights >= 1
    ensures r.Success? ==>
      && RequestFor(row, roomType, checkIn, checkOut).Success?
      && r.value.property == row.propertyName
      && r.value.role == row.role
      && r.value.category == Lower(row.propertyCategory)
      && Success(r.value.pricePerNight)
         == PriceFromItems(scrape(RequestFor(row, roomType, checkIn, checkOut).value), nights, row.propertyName)
    ensures RequestFor(row, roomType, checkIn, checkOut).Failure? ==>
      r == Failure(UnknownRoomType(roomType))
    ensures RequestFor(row, roomType, checkIn, checkOut).Success? ==>
      (r.Success? <==>
        PriceFromItems(scrape(RequestFor(row, roomType, checkIn, checkOut).value), nights, row.propertyName).Success?)
    ensures RequestFor(row, roomType, checkIn, checkOut).Success?
      && PriceFromItems(scrape(RequestFor(row, roomType, checkIn, checkOut).value), nights, row.propertyName).Failure?
      ==> r == Failure(MissingPriceTotal(row.propertyName))
  {
    var request :- RequestFor(row, roomType, checkIn, checkOut);
    var price :- PriceFromItems(scrape(request), nights, row.propertyName);
    Success(ResultRecord(row.propertyName, row.role, Lower(row.propertyCategory), price))
  }

  // ---------------------------------------------------------------------
  // Result assembly and the page run
  // ---------------------------------------------------------------------

  /**
   * The fetch loop: one scraper run and one result record per selected row,
   * in order. It stops at the first row whose lookup or price raises; then
   * no table is produced. `calls` lists the scraper runs it started.
   */
  method FetchPrices(selected: seq<PropertyRow>, roomType: string, checkIn: Date, checkOut: Date, nights: int,
                     scrape: RunInput -> seq<Item>)
    returns (outcome: Result<seq<ResultRecord>, PageError>, calls: seq<RunInput>)
    requires nights >= 1
    ensures outcome.Success? <==>
      forall i :: 0 <= i < |selected| ==> RecordFor(selected[i], roomType, checkIn, checkOut, nights, scrape).Success?
    ensures outcome.Success? ==>
      && |outcome.value| == |selected|
      && |calls| == |selected|
      && forall i :: 0 <= i < |selected| ==>
           RecordFor(selected[i], roomType, checkIn, checkOut, nights, scrape) == Success(outcome.value[i])
    ensures outcome.Failure? ==>
      exists k :: 0 <= k < |selected|
        && (forall j :: 0 <= j < k ==> RecordFor(selected[j], roomType, checkIn, checkOut, nights, scrape).Success?)
        && RecordFor(selected[k], roomType, checkIn, checkOut, nights, scrape) == Failure(outcome.error)
        && |calls| == (if RequestFor(selected[k], roomType, checkIn, checkOut).Success? then k + 1 else k)
    ensures |calls| <= |selected|
    ensures forall i :: 0 <= i < |calls| ==> RequestFor(selected[i], roomType, checkIn, checkOut) == Success(calls[i])
  {
    var results: seq<ResultRecord> := [];
    calls := [];
    var i := 0;
    while i < |selected|
      invariant 0 <= i <= |selected|
      invariant |results| == i && |calls| == i
      invariant forall j :: 0 <= j < i ==>
        RecordFor(selected[j], roomType, checkIn, checkOut, nights, scrape) == Success(results[j])
      invariant forall j :: 0 <= j < i ==> RequestFor(selected[j], roomType, checkIn, checkOut) == Success(calls[j])
    {
      var row := selected[i];
      var category := Lower(row.propertyCategory);
      var occupancy := DecideOccupancy(category, roomType);
      if occupancy.Failure? {
        return Failure(occupancy.error), calls;
      }
      var input := RunInput(row.bookingUrl, checkIn, checkOut, occupancy.value.adults, occupancy.value.children,
                            Currency, MaxListings);
      calls := calls + [input];
      var items := scrape(input);
      var price: Option<int>;
      if |items| > 0 {
        match items[0].priceTotal
        case None =>
          return Failure(MissingPriceTotal(row.propertyName)), calls;
        case Some(total) =>
          price := Some(PerNightCents(total, nights));
      } else {
        price := None;
      }
      results := results + [ResultRecord(row.propertyName, row.role, category, price)];
      i := i + 1;
    }
    outcome := Success(results);
  }

  /**
   * One run of the page: the stay guard, the selection, the fetch button,
   * and the fetch loop. `calls` lists the scraper runs started.
   */
  method RunPage(table: seq<PropertyRow>, unit: string, roomType: string, checkIn: Date, checkOut: Date,
                 fetchClicked: bool, scrape: RunInput -> seq<Item>)
    returns (outcome: PageOutcome, calls: seq<RunInput>)
    requires Valid(checkIn) && Valid(checkOut)
    ensures AtOrBefore(checkOut, checkIn) ==> outcome == Failed(CheckOutNotAfterCheckIn) && calls == []
    ensures !AtOrBefore(checkOut, checkIn) && (forall row :: row in table ==> !Matches(row, unit, roomType)) ==>
      outcome == Failed(NoDataForSelection) && calls == []
    ensures !fetchClicked ==> calls == [] && !outcome.Shown?
    ensures |calls| <= |Select(table, unit, roomType)|
    ensures forall i :: 0 <= i < |calls| ==>
      RequestFor(Select(table, unit, roomType)[i], roomType, checkIn, checkOut) == Success(calls[i])
    ensures !AtOrBefore(checkOut, checkIn) && Select(table, unit, roomType) != [] && !fetchClicked ==>
      outcome == AwaitingFetch
    ensures !AtOrBefore(checkOut, checkIn) && Select(table, unit, roomType) != [] && fetchClicked ==>
      (outcome.Shown? <==>
        forall i :: 0 <= i < |Select(table, unit, roomType)| ==>
          RecordFor(Select(table, unit, roomType)[i], roomType, checkIn, checkOut, DaysBetween(checkIn, checkOut), scrape).Success?)
    ensures !AtOrBefore(checkOut, checkIn) && Select(table, unit, roomType) != [] && fetchClicked ==>
      outcome.Shown? || outcome.Failed?
    ensures !AtOrBefore(checkOut, checkIn) && Select(table, unit, roomType) != [] && outcome.Failed? ==>
      var selected := Select(table, unit, roomType);
      exists k :: 0 <= k < |selected|
        && (forall j :: 0 <= j < k ==>
              RecordFor(selected[j], roomType, checkIn, checkOut, DaysBetween(checkIn, checkOut), scrape).Success?)
        && RecordFor(selected[k], roomType, checkIn, checkOut, DaysBetween(checkIn, checkOut), scrape)
             == Failure(outcome.error)
        && |calls| == (if RequestFor(selected[k], roomType, checkIn, checkOut).Success? then k + 1 else k)
    ensures outcome.Shown? ==>
      && fetchClicked
      && Ordinal(checkIn) < Ordinal(checkOut)
      && var selected := Select(table, unit, roomType);
         && |outcome.results| == |selected| == |calls|
         && forall i :: 0 <= i < |selected| ==>
              RecordFor(selected[i], roomType, checkIn, checkOut, DaysBetween(checkIn, checkOut), scrape)
                == Success(outcome.results[i])
  {
    var stay := StayNights(checkIn, checkOut);
    OrdinalMatchesOrder(checkOut, checkIn);
    if stay.Failure? {
      return Failed(stay.error), [];
    }
    var nights := stay.value;
    var selected := Select(table, unit, roomType);
    SelectEmpty(table, unit, roomType);
    if selected == [] {
      return Failed(NoDataForSelection), [];
    }
    if !fetchClicked {
      return AwaitingFetch, [];
    }
    var fetched;
    fetched, calls := FetchPrices(selected, roomType, checkIn, checkOut, nights, scrape);
    if fetched.Failure? {
      outcome := Failed(fetched.error);
    } else {
      outcome := Shown(fetched.value);
    }
  }
}
