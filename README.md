# Booking.com competitor price monitor: the decision pipeline

The price monitor is a one-page dashboard. It reads a sheet of competitor
properties, lets the operator pick a unit, a room type and a stay window,
and, when the "Fetch prices" button is pressed, starts one run of a
Booking.com scraper per matching property and shows each property's price per
night. This project models the decisions that page takes, and proves what
they guarantee:

- **Stay window** (`Monitor.StayNights`, module `Calendar`): the page stops
  with an error unless check-out is strictly after check-in. Dates are
  proleptic Gregorian (year, month, day) values compared field by field, and
  the number of nights is the difference of their day ordinals. The proof
  that field-by-field order agrees with ordinal order (`Calendar.OrdinalMatchesOrder`)
  is what makes "the guard passed" imply "at least one night", so the later
  division by the number of nights is never by zero.
- **Row selection** (`Monitor.Select`): the rows whose `unit_name` and
  `room_type` equal the chosen ones, in sheet order; the page stops with a
  warning when there are none, before any scraper run.
- **Occupancy** (`Monitor.DecideOccupancy`): the lower-cased category
  `apartment` or `mobile` always asks for 1 adult and 0 children; any other
  category looks the chosen room type up in the fixed room mapping
  (double 2/0, triple 3/0, family 2/2). A room type missing from the mapping
  raises and ends the run; there is no default.
- **Price per night** (`Monitor.PriceFromItems`, `Monitor.PerNightCents`):
  no dataset items means the price is unresolved (`None`, never 0);
  otherwise the first item's `price.total` divided by the nights, rounded to
  the cent.
- **Result assembly** (`Monitor.FetchPrices`, `Monitor.RunPage`): a loop
  that, row by row and in order, decides the party, starts one scraper run,
  and appends one record (property, role, lower-cased category, price). Its
  contract ties the i-th record to the i-th selected row and lists the
  scraper runs it started.

The scraper is the function parameter `scrape`: from a run input (booking
URL, check-in, check-out, adults, children, currency `EUR`, at most one
listing) to the sequence of dataset items of the finished run, possibly
empty. Money is in euro cents.

Files: `wrappers.dfy` (Option and Result), `calendar.dfy` (dates),
`monitor.dfy` (the page's pipeline).

## Model

| member | source | states |
|---|---|---|
| `Calendar.OrdinalMatchesOrder` | app.py:46-50 | For valid dates, comparing (year, month, day) field by field agrees with comparing day ordinals, both for `<=` and for equality; so the date guard and the day count cannot disagree |
| `Calendar.NextDayIsOneLater` | app.py:50 | The day after any valid date other than 9999-12-31 is valid and its ordinal is one more, so the day count of a stay counts calendar days |
| `Calendar.DaysBeforeMonthStep` | app.py:50 | The table of days before each month and the table of month lengths agree: each month begins where the previous one ends |
| `Calendar.DaysBetween` | app.py:50 | The day count of `b - a` is positive exactly when `b` is strictly after `a`, and zero exactly when the dates are equal |
| `Monitor.StayNights` | app.py:46-50 | Fails with the check-out error exactly when check-out is not after check-in, stated both as the field-by-field date comparison and in day ordinals; otherwise yields nights >= 1 with check-in + nights = check-out |
| `Monitor.Select` | app.py:52-55 | Every selected row has the chosen unit and room type, and each matching row occurs in the selection exactly as often as in the sheet, non-matching rows never |
| `Monitor.SelectAppend` | app.py:52-55 | Selection distributes over concatenation of sheets, so sheet order is kept |
| `Monitor.SelectEmpty` | app.py:52-59 | The selection is empty exactly when no sheet row matches the chosen unit and room type |
| `Monitor.Lower` | app.py:71 | Lower-casing keeps the length, leaves no capital letter A-Z, and changes only capital letters, each to its lower-case letter |
| `Monitor.DecideOccupancy` | app.py:71-79 | `apartment`/`mobile` give 1 adult 0 children for any room type; otherwise double 2/0, triple 3/0, family 2/2; fails with the unknown room type exactly when neither applies; adults are at least 1 on success (the three entries are the room mapping table of app.py:23-27) |
| `Monitor.RequestFor` | app.py:81-89 | The scraper input carries the row's booking URL, the stay dates, the decided party, currency EUR and one listing; it fails exactly when the occupancy decision fails |
| `Monitor.PerNightCents` | app.py:97 | The price per night is within half a cent per night of the exact share: 2 * abs(ppn * nights - total) <= nights, and an exact tie is rounded to an even cent |
| `Monitor.PerNightIsNearest` | app.py:97 | No other whole cent value is closer to total / nights |
| `Monitor.PerNightIsDetermined` | app.py:97 | Any cent value meeting the rounding contract is the computed one, so the contract fixes the result |
| `Monitor.PerNightExact` | app.py:97 | A total that divides evenly by the nights is split exactly |
| `Monitor.PerNightNonNegative` | app.py:97 | A non-negative total gives a non-negative price per night |
| `Monitor.PriceFromItems` | app.py:95-99 | Unresolved (`None`) exactly when the scraper returned no items; a first item without a total fails; otherwise the price is within the rounding bound of the first item's total over the nights |
| `Monitor.RecordFor` | app.py:70-106 | A row with a known party gets a record exactly when the price of its scraper items resolves; the record copies the row's property name and role, holds the lower-cased category, and its price is the price of the items of that row's own scraper request; an unknown room type fails the row with that room type, and a first item without a total fails it with the row's property name |
| `Monitor.FetchPrices` | app.py:66-106 | Succeeds exactly when every selected row's record succeeds, then yields one record per selected row in order, record i being row i's; otherwise fails with the first failing row's error; the scraper runs started are exactly the requests of the rows processed, in order, including the failing row's when its failure comes after the call |
| `Monitor.RunPage` | app.py:46-110 | Bad dates or an empty selection stop the page with no scraper run; past both guards, without the button press the page awaits the fetch and nothing is fetched; with it, the page ends either shown or failed, never awaiting the fetch; the table is shown exactly when every selected row's record succeeds, and otherwise the page fails with the error of the first failing row, having started scraper runs for the rows before it and for the failing row only when its failure comes after the call; every scraper run is the request of the selected row at the same position; a shown table has one record per selected row, with nights = the day count of the stay |

## Left out

- The Streamlit user interface: page setup, the unit and room type select
  boxes (their options are the sorted distinct sheet values), the date
  inputs and their default of today, the spinner, the success message and
  the results table display. The chosen unit, room type, dates and the
  button press are parameters.
- Reading the secrets and downloading the sheet as CSV; the sheet is a
  parameter, a sequence of rows with every field present as a string.
- The scraper client and the actor call: replaced by the `scrape`
  parameter. Its network failures, time-outs and exceptions are not
  modelled; the date values are passed as dates, not as ISO strings.
- Monitor.PerNightCents: does not model Python's binary floating point. The
  total is taken as a whole number of cents and the division is exact;
  the contract states the half-cent-per-night bound and round-half-to-even
  on exact ties, not bit-exact agreement with `round` on floats.
- Monitor.Item: every first item without a usable total is one case,
  `None`, which ends the run with `MissingPriceTotal`. In the source these
  are different exceptions at different places: a missing `price` or
  `total` key raises KeyError at the lookup, a null `price` raises
  TypeError at the lookup, and a null total raises TypeError at the
  division by the nights. A non-numeric total is not modelled.
- Monitor.Lower: lower-cases the ASCII letters only; Python's `str.lower`
  also maps non-ASCII letters.
- An exception inside the loop ends the page run; records built before it
  are never shown, so the model returns only the error (and the list of
  scraper runs already started).
