# Fleet dashboard: vehicle check-in state machine

This project models, in Dafny, the logic inside the fleet management
dashboard component (`src/Help.jsx`). The component holds four pieces of
state:

- the vehicle list;
- the notification feed;
- the check-in draft;
- the scan-mode flag.

Its handlers change that state:

- a scan resolves a QR code to a vehicle id in the draft;
- a check-in returns the drafted vehicle to `available`, takes new mileage
  and fuel readings through JavaScript `parseInt(...) || old`, lists it in the
  WhatsApp catalog, clears its rental and maintenance metadata, and pushes a
  `checkin` entry onto a feed that keeps at most five entries;
- a click on a notification marks it read;
- Cancel resets the draft.

Two values are derived from the state: the dashboard statistics and the
status filter.

Modules:

- `FleetTypes` (`fleet_types.dfy`) holds the records, the seed data, and the
  registry invariant: unique ids and scan codes, rental metadata only on rented
  vehicles, an issue only on vehicles in maintenance.
- `JsNumber` (`js_number.dfy`) holds `parseInt` without a radix and the `||`
  fallback. `parseInt` skips ECMAScript whitespace, takes an optional sign,
  reads hexadecimal after `0x`/`0X`, and reads the longest digit prefix.
  `None` stands for NaN. `Decimal`/`Render` is an independent decimal renderer
  that `parseInt` is proved to invert.
- `NotificationFeed` (`notification_feed.dfy`) holds the bounded push, the
  mark-read map and the unread count.
- `FleetRegistry` (`fleet_registry.dfy`) holds the status filter, the lookup
  by scan code and the statistics.
- `CheckIn` (`check_in.dfy`) holds the check-in rewrite of the vehicle list,
  the entry it emits, and the effect of a check-in on the statistics.
- `FleetDashboard` (`fleet_app.dfy`) holds the class `FleetApp`. Its fields
  are `vehicles`, `notifications`, `draft` and `scanMode`, and its methods are
  the handlers. Each method states its new state in terms of the pure
  functions above and keeps `Valid()`: the registry invariant plus a feed of at
  most five entries.

Three behaviours of the code worth stating:

- Checking in an id that matches no vehicle is not an error. The vehicle list
  is left unchanged, and a check-in entry is still pushed.
- Readings are neither validated nor clamped. A reading that parses to NaN or
  to 0 keeps the old value. Any other value is stored, including a negative
  one or one above 100.
- A scan code that matches nothing is a silent no-op. The scanner stays in
  whatever mode it was in.

## Model

| member | source | states |
|---|---|---|
| FleetTypes.SeedWellFormed | src/Help.jsx:17-74 | the seed vehicles have unique ids and scan codes; only the rented V002 has a return date and customer, and only V003 in maintenance has an issue; the seed feed has three entries |
| JsNumber.OrIfFalsy | src/Help.jsx:115-116 | JavaScript `parsed or fallback` as a number: the result is the parsed number when that is a number other than 0, and the fallback otherwise |
| JsNumber.ParseIntReadsRendering | src/Help.jsx:115-116 | `parseInt` of an integer's decimal text gives that integer, also when other text follows, unless that text continues the number (a digit, or `x` after a lone `0`) |
| JsNumber.ParseInt | src/Help.jsx:115-116 | `parseInt` without a radix; characterised by `ParseIntRoundTrip` and `ParseIntReadsRendering` (it reads back any integer's decimal text), `ParseIntWithoutDigits` (NaN without digits) and `ParseIntSkipsWhitespace` |
| JsNumber.ParseIntRoundTrip | src/Help.jsx:115-116 | `parseInt` inverts decimal rendering for every integer |
| JsNumber.ParseIntWithoutDigits | src/Help.jsx:115-116 | text with no decimal digit (`""`, `"abc"`) parses to NaN |
| JsNumber.ParseIntSkipsWhitespace | src/Help.jsx:115-116 | leading whitespace does not change the parse |
| NotificationFeed.UnreadCount | src/Help.jsx:92 | the unread count is at most the feed length, and it is 0 exactly when every entry is read |
| NotificationFeed.Take | src/Help.jsx:131 | `slice(0, k)`: the first min(length, k) entries in their order; `Push` builds the new feed from it |
| NotificationFeed.Push | src/Help.jsx:125-131 | after a push the feed has length min(old+1, 5), the new entry first and then the old entries in order |
| NotificationFeed.PushUnread | src/Help.jsx:125-131 | pushing an unread entry onto a feed of at most five never lowers the unread count, and raises it by one below the bound |
| NotificationFeed.PushAllKeepsMostRecent | src/Help.jsx:125-131 | after any sequence of pushes the feed holds the five most recently pushed entries, most recent first, and never more than five |
| NotificationFeed.MarkRead | src/Help.jsx:136-140 | same length; an entry is read afterwards iff it was read or has the id; no other field changes |
| NotificationFeed.MarkReadIdempotent | src/Help.jsx:136-140 | marking the same id twice equals marking it once |
| NotificationFeed.MarkReadUnknownId | src/Help.jsx:136-140 | an id no entry carries leaves the feed unchanged |
| NotificationFeed.MarkReadUnread | src/Help.jsx:136-140 | the unread count drops by exactly the number of unread entries with that id |
| FleetRegistry.FilterVehicles | src/Help.jsx:95-98 | `All` gives the list unchanged; no filter lengthens the list |
| FleetRegistry.FilterMembership | src/Help.jsx:95-98 | a vehicle is in the filtered list iff it is in the list and has the selected status (any vehicle for `All`) |
| FleetRegistry.FilterAppend | src/Help.jsx:95-98 | filtering keeps the original order: the filter of a concatenation is the concatenation of the filters |
| FleetRegistry.FilterNoMatch | src/Help.jsx:95-98 | a status no vehicle has yields the empty list |
| FleetRegistry.StatusPartition | src/Help.jsx:86-89 | the available, rented and maintenance counts add up to the number of vehicles |
| FleetRegistry.FindByQrCode | src/Help.jsx:102 | `find`: none exactly when no vehicle has the code; otherwise the vehicle at the first position with that code |
| FleetRegistry.FindOwnQrCode | src/Help.jsx:101-107 | with unique scan codes, looking up a vehicle's code finds that vehicle |
| FleetRegistry.Revenue | src/Help.jsx:90 | the revenue `reduce`: 0 when no vehicle is rented; `RevenueOfRented` equates it with the sum of rates over the rented vehicles |
| FleetRegistry.RevenueOfRented | src/Help.jsx:90 | the revenue `reduce` equals the sum of daily rates over exactly the rented vehicles |
| FleetRegistry.ListedCount | src/Help.jsx:91 | the catalog count is at most the number of vehicles, and equals it exactly when every vehicle is listed |
| FleetRegistry.ComputeStats | src/Help.jsx:85-93 | total is the list length; available + rented + maintenance = total; revenue is the sum of rates of the rented vehicles; the listed and unread counts are bounded by their lists; unread is 0 iff all entries are read |
| CheckIn.CheckInVehicle | src/Help.jsx:112-121 | the checked-in vehicle is available and listed, with no return date, customer or issue; its readings follow the rule "parseInt of the draft text, or the old value"; every other field is unchanged |
| CheckIn.CheckInAll | src/Help.jsx:110-123 | same length and order; each vehicle with the draft's id is checked in, every other one is unchanged |
| CheckIn.CheckInNotification | src/Help.jsx:125-130 | the new entry has the given id, type `checkin`, is unread, and its message mentions the vehicle id |
| CheckIn.CheckInPreservesWellFormed | src/Help.jsx:110-123 | check-in preserves unique ids and scan codes and the status/optional-field consistency |
| CheckIn.CheckInUnknownId | src/Help.jsx:110-123 | a draft id that matches no vehicle leaves the list unchanged |
| CheckIn.CheckInOne | src/Help.jsx:110-123 | with unique ids, check-in replaces exactly the vehicle with that id |
| CheckIn.CheckInStatusCount | src/Help.jsx:110-123 | after check-in, each status count changes only by the checked-in vehicle moving to available |
| CheckIn.CheckInRevenue | src/Help.jsx:110-123 | after check-in, revenue drops by the vehicle's daily rate if it was rented, and is unchanged otherwise |
| CheckIn.CheckInListed | src/Help.jsx:110-123 | after check-in, the WhatsApp catalog count rises by one if the vehicle was not listed, and is unchanged otherwise |
| CheckIn.CheckInStats | src/Help.jsx:85-131 | the statistics after check-in and its push onto a feed of at most five: total unchanged, the vehicle moved from its status to available, its rate out of the revenue if rented, the catalog count up by one if it was unlisted, unread never lower and up by one while the feed was below five |
| CheckIn.ReadingWithoutDigitsKept | src/Help.jsx:115-116 | a reading with no digit (`""`, `"abc"`) keeps the old value |
| CheckIn.ReadingOfNumber | src/Help.jsx:115-116 | the decimal text of n stores n (negative or above 100 alike), except that `"0"` keeps the old value |
| CheckIn.ReturnOfRentedVehicle | src/Help.jsx:101-131 | scanning QR002 finds V002; checking it in with non-zero readings makes it available with those readings, clears its customer and return date, lists it, and leaves V001 and V003 untouched; the feed gains one unread `checkin` entry naming V002 |
| CheckIn.NonNumericMileageKept | src/Help.jsx:115 | checking in V003 with mileage `"abc"` keeps its mileage of 8900 |
| FleetDashboard.FleetApp.constructor | src/Help.jsx:11-82 | the component starts with the seed vehicles and feed, the empty draft and the scanner off, and its invariant holds |
| FleetDashboard.FleetApp.HandleScan | src/Help.jsx:101-107 | a known code sets only the draft's vehicle id, to that of the first matching vehicle, and turns scan mode off; an unknown code changes nothing |
| FleetDashboard.FleetApp.HandleCheckIn | src/Help.jsx:109-134 | vehicles are rewritten by the check-in map; the check-in entry is pushed even when no vehicle matched; the draft is reset; the invariant holds; unread does not decrease |
| FleetDashboard.FleetApp.HandleNotificationClick | src/Help.jsx:136-140 | the feed becomes its mark-read map; unread drops by the unread entries with that id; the invariant holds |
| FleetDashboard.FleetApp.CancelCheckIn | src/Help.jsx:480 | the draft becomes the empty draft; vehicles and feed are outside its frame and so stay unchanged |
| FleetDashboard.FleetApp.SetScanMode | src/Help.jsx:370 | the Start Scan and Cancel Scan buttons (lines 370 and 400) set the scan flag and nothing else |
| FleetDashboard.FleetApp.EditMileage | src/Help.jsx:428 | only the draft's mileage text changes |
| FleetDashboard.FleetApp.EditFuelLevel | src/Help.jsx:440 | only the draft's fuel text changes |
| FleetDashboard.FleetApp.EditCondition | src/Help.jsx:451 | only the draft's condition changes |
| FleetDashboard.FleetApp.EditNotes | src/Help.jsx:465 | only the draft's notes change |

## Left out

- Rendering: the JSX markup, `StatCard`, `VehicleCard`, the tab views and `getStatusColor` are presentation. The active-tab, filter-selection and mobile-menu state are also presentation; the filter is a parameter of `FilterVehicles` instead.
- Icons from `lucide-react`: a foreign library.
- `Date.now()` for a new entry's id is clock access. It is the `stamp` parameter of `HandleCheckIn`. The entry's time text is the literal "Just now".
- React's state scheduling and memoisation. Each handler is one atomic update. `stats` and `filteredVehicles` are functions recomputed from the current state.
- JavaScript number semantics. Integers are unbounded, so precision loss above 2^53 is not modelled. Daily rates are integers, as in the seed data.
- JsNumber.ParseInt: a parsed negative zero is the integer 0. In JavaScript -0 is falsy, so the `||` fallback gives the same result.
- Status is an enumeration of the three values the code assigns, so a filter value other than 'all' or one of those three is not modelled.
- The draft's `condition` and `notes` are stored and edited, but no handler reads them.
- The "Add Vehicle" button has no handler. The maintenance and reports tabs hold no logic.
