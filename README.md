# ZeitTracker time clock — a Dafny model

ZeitTracker is a small employee time clock. Employees clock in ("Einstempeln") and out
("Ausstempeln") with their name, a driver flag and their position. An administrator logs in and
views, filters and counts all entries. This project models the parts of it that make decisions:

- the in-memory store `MemStorage`: two tables keyed by id, two id counters, four entry queries,
  the credential check and the two inserts (`storage.dfy`, the class `Storage.MemStorage`);
- the request handlers: which store query a listing request runs, validation before an entry is
  stored, the login guard, and which status code each outcome gets (`routes.dfy`);
- the record shapes and the time-entry insert schema with its defaults (`schema.dfy`);
- the admin dashboard's filters and its fallback to the full list (`admin_dashboard.dfy`, the class
  `AdminDashboard.Dashboard`);
- the home page's "last five of my entries" (`home.dfy`);
- the admin table and the recent-entries list: newest-first sorting, legacy type labels,
  clock-in/clock-out display, loading/error/empty precedence and the count line
  (`chronology.dfy`, `entry_type.dfy`, `entries_table.dfy`, `recent_entries.dfy`).

Shared helpers: `Text` (lower-casing, substring search, decimal digits), `Sequences` (`filter`,
`find`, `slice`, subsequences), `Time` (JavaScript dates as milliseconds, day windows) and
`Wrappers` (`Option`, `Result`).

Modelling choices:

- Timestamps are integer milliseconds. A day is a fixed 86 400 000 ms, and it starts where the
  count is a multiple of that. `new Date(text)` is a parameter `parse: string -> JsDate`. It may
  yield `InvalidDate`, and every comparison with an invalid date is false.
- The store's tables are `map`s that the methods reassign. Its `Valid()` invariant says that the
  keys are exactly `1 .. counter - 1` and that every record carries its key as its id.
  A JavaScript `Map` lists its values in insertion order, which here is ascending id order.
- The clock (`new Date()` in `createTimeEntry`) is the parameter `now`.
- Request bodies are maps from keys to decoded values (`Schema.Json`). A missing key is
  `undefined`.

Behaviour of the code worth knowing (the first, fourth and fifth points are about the in-memory store, over which the handlers are modelled):

- An unparseable `date` query parameter does not produce an invalid-request error. The store
  compares against an Invalid Date and returns an empty list (`Time.InClosedDay` is false for
  `InvalidDate`).
- A name is not required to be non-empty. Any string passes validation.
- The stored type values are "Einstempeln"/"Ausstempeln", with the legacy "Kommen"/"Gehen" still
  displayed. The type is free text and is never checked.
- The in-memory store returns entries in insertion order.
- `MemStorage` does not enforce unique admin usernames. Only the database's `unique` constraint
  does that (`Storage.DuplicateUsernameAccepted`).

## Model

| member | source | states |
|---|---|---|
| `Text.LowerChar` | ZeitTracker/server/storage.ts:107 | ASCII capitals and the Latin-1 capitals U+00C0–U+00DE (except ×) map to their small letters; the result is never an ASCII capital; every other character is left unchanged, including characters JavaScript would lower-case |
| `Text.Lower` | ZeitTracker/server/storage.ts:107-109 | `toLowerCase` keeps the length and maps each character on its own |
| `Text.LowerIdempotent` | ZeitTracker/server/storage.ts:107-109 | lower-casing twice is the same as lower-casing once |
| `Text.ContainsIffOccurs` | ZeitTracker/server/storage.ts:109 | `includes(t)` holds iff `t` occurs at some index of `s` |
| `Text.ContainsEmptyAndSelf` | ZeitTracker/server/storage.ts:109 | every string includes `""` and includes itself |
| `Text.EqualsImpliesContains` | ZeitTracker/client/src/pages/home.tsx:30 | case-insensitive equality implies case-insensitive containment |
| `Text.Decimal` | ZeitTracker/client/src/components/admin/entries-table.tsx:99 | a count is printed as at least one decimal digit, with no leading zero unless the count is 0 |
| `Text.DecimalRoundTrip` | ZeitTracker/client/src/components/admin/entries-table.tsx:99 | the printed count reads back as the same number |
| `Sequences.Filter` | ZeitTracker/server/storage.ts:108-109 | `filter` keeps exactly the elements that satisfy the predicate, and the result is no longer than the input |
| `Sequences.FilterMultiset` | ZeitTracker/server/storage.ts:108-109 | each selected element is kept as often as it occurs, and every other element is dropped |
| `Sequences.FilterIsSubsequence` | ZeitTracker/client/src/pages/admin-dashboard.tsx:44-62 | filtering keeps the relative order of the input |
| `Sequences.FilterKeepsAll` | ZeitTracker/client/src/pages/admin-dashboard.tsx:44 | a predicate that holds everywhere returns the list unchanged |
| `Sequences.FilterKeepsNone` | ZeitTracker/client/src/pages/admin-dashboard.tsx:74 | a predicate that holds nowhere returns the empty list |
| `Sequences.FilterAgrees` | ZeitTracker/client/src/pages/admin-dashboard.tsx:58-61 | predicates that agree on the elements select the same list |
| `Sequences.FilterTwice` | ZeitTracker/client/src/pages/admin-dashboard.tsx:46-61 | filtering twice equals filtering once by the conjunction |
| `Sequences.Find` | ZeitTracker/server/storage.ts:156-157 | `find` returns an element iff some element satisfies the predicate, and it returns the first such element |
| `Sequences.Take` | ZeitTracker/client/src/pages/home.tsx:32 | `slice(0, n)` is the prefix of length `min(n, |s|)` |
| `Time.DayStart` | ZeitTracker/server/storage.ts:113-114 | `setHours(0,0,0,0)` gives a day boundary at or before the instant, less than one day before it |
| `Time.WindowsAgree` | ZeitTracker/server/storage.ts:113-122 | the closed window `[start, start+86 399 999]` and the half-open window `[start, start+1 day)` hold for the same millisecond, namely one on the same day as `d`; an invalid date matches nothing |
| `Time.DayStartOfOffset` | ZeitTracker/server/storage.ts:113-114 | every instant inside day `k` has that day's start as its day start |
| `Schema.Issues` | ZeitTracker/shared/schema.ts:15-17 | the reported keys are exactly the schema keys whose value is missing or has the wrong type |
| `Schema.ValidateInsertTimeEntry` | ZeitTracker/shared/schema.ts:5-17 | succeeds iff name and type are strings, latitude and longitude are numbers, and timestamp/isDriver are absent or a date/boolean; on success the payload carries exactly the body's values, optional fields only when present; on failure it lists every offending key, in schema order, and nothing else |
| `Schema.ValidateToBody` | ZeitTracker/shared/schema.ts:15-17 | every insert payload, sent as a body, validates back to itself |
| `Schema.ExtraKeysIgnored` | ZeitTracker/shared/schema.ts:15-17 | a key outside the schema, `id` included, never changes the outcome, so the payload never carries an id |
| `Chronology.SortPermutes` | ZeitTracker/client/src/components/admin/entries-table.tsx:44-46 | the sorted copy is a permutation of the input |
| `Chronology.SortOrders` | ZeitTracker/client/src/components/admin/entries-table.tsx:44-46 | the sorted copy has non-increasing timestamps |
| `Chronology.SortNewestFirstCorrect` | ZeitTracker/client/src/components/admin/entries-table.tsx:44-46 | the sorted copy is a permutation of the input, has the same length, and is newest first |
| `Chronology.SortKeepsSorted` | ZeitTracker/client/src/components/admin/entries-table.tsx:44-46 | a list that is already newest first is returned unchanged |
| `Chronology.PrefixOfNewestFirst` | ZeitTracker/client/src/pages/home.tsx:31-32 | cutting a newest-first list keeps it newest first, and nothing cut off is newer than anything kept |
| `Storage.BuildEntry` | ZeitTracker/server/storage.ts:145-150 | the stored record keeps the supplied fields, takes the given id, uses `now` when the timestamp is missing and `false` when isDriver is missing |
| `Storage.ValuesInKeyOrder` | ZeitTracker/server/storage.ts:103 | listing ids 1..n gives n values, the i-th of which is stored under id i+1 |
| `Storage.ValuesInKeyOrderAreValues` | ZeitTracker/server/storage.ts:103 | when the keys are exactly 1..n, the listing contains exactly the map's values |
| `Storage.MemStorage.constructor` | ZeitTracker/server/storage.ts:89-100 | a fresh store has no entries, entry counter 1, the single admin `admin`/`admin123` under id 1 and admin counter 2; `admin`/`admin123` is accepted and every other password for `admin` is rejected |
| `Storage.MemStorage.GetAllTimeEntries` | ZeitTracker/server/storage.ts:102-104 | returns every stored entry exactly once, in id order, with ids 1, 2, 3, … |
| `Storage.MemStorage.GetTimeEntriesByName` | ZeitTracker/server/storage.ts:106-110 | returns exactly the stored entries whose lower-cased name contains the lower-cased query, in store order |
| `Storage.MemStorage.EmptyNameSelectsAll` | ZeitTracker/server/storage.ts:106-110 | an empty name query returns every stored entry, in store order |
| `Storage.MemStorage.GetTimeEntriesByDate` | ZeitTracker/server/storage.ts:112-124 | returns exactly the stored entries from 00:00:00.000 to 23:59:59.999 of the date's day, both ends included, in store order |
| `Storage.MemStorage.GetTimeEntriesByNameAndDate` | ZeitTracker/server/storage.ts:126-140 | returns exactly the stored entries that satisfy both the name and the day condition, in store order |
| `Storage.MemStorage.AdminList` | ZeitTracker/server/storage.ts:156 | lists the admins in id order |
| `Storage.MemStorage.ValidateAdmin` | ZeitTracker/server/storage.ts:155-160 | true iff some stored admin has exactly this username and this password |
| `Storage.MemStorage.CreateTimeEntry` | ZeitTracker/server/storage.ts:142-153 | stores the record built with the current counter as id; that id was unused and is larger than every existing id; the counter goes up by one; nothing else changes; the listing gains the record at its end |
| `Storage.MemStorage.CreateAdmin` | ZeitTracker/server/storage.ts:162-170 | stores the admin under the current admin counter, an id not used before; the counter goes up by one; the entries are untouched |
| `Storage.DuplicateUsernameAccepted` | ZeitTracker/server/storage.ts:162-170 | the in-memory store accepts a second admin named `admin`, and both passwords are then accepted |
| `Storage.AnnaOnNewYear` | ZeitTracker/server/storage.ts:126-140 | two "Anna" entries on 2024-01-01 and one "Bob" entry on 2024-01-02; the query "anna" for 2024-01-01 returns exactly the two Anna entries, in order; they got the generated ids 1 and 2 and the default driver flag `false` |
| `Storage.AnnaSelected` | ZeitTracker/server/storage.ts:134-139 | the name-and-day selection keeps both Anna entries and drops Bob's |
| `Routes.ChooseQuery` | ZeitTracker/server/routes.ts:14-25 | name and date → by name and date; name only → by name; date only → by date; neither → all; an empty string counts as absent |
| `Routes.ListResponse` | ZeitTracker/server/routes.ts:27-31 | status 500 iff the store failed; otherwise 200 with the entries |
| `Routes.HandleGetTimeEntries` | ZeitTracker/server/routes.ts:9-32 | status 200; an entry is returned iff it is stored and passes the name condition when a name is given and the day condition when a date is given; the store order is kept |
| `Routes.CreateResponse` | ZeitTracker/server/routes.ts:48-53 | status 500 iff the store failed; otherwise 201 with the created entry |
| `Routes.HandleCreateTimeEntry` | ZeitTracker/server/routes.ts:35-54 | an invalid body gets 400 with the offending keys, and the store is unchanged; a valid body is stored exactly once under the next id with defaults filled in, and the answer is 201 with that record |
| `Routes.LoginResponse` | ZeitTracker/server/routes.ts:65-75 | true → 200 with success; false → 401 without success; a store failure → 500 |
| `Routes.HandleAdminLogin` | ZeitTracker/server/routes.ts:57-76 | a falsy username or password gets 400 before any credential check; otherwise success (200) iff a stored admin has exactly that username and password as strings, and 401 if not |
| `AdminDashboard.Dashboard.constructor` | ZeitTracker/client/src/pages/admin-dashboard.tsx:19-21 | both filter inputs start as `""` and the filtered list starts empty |
| `AdminDashboard.Dashboard.SetNameFilter` | ZeitTracker/client/src/pages/admin-dashboard.tsx:95 | sets the name input and nothing else |
| `AdminDashboard.Dashboard.SetDateFilter` | ZeitTracker/client/src/pages/admin-dashboard.tsx:96 | sets the date input and nothing else |
| `AdminDashboard.Dashboard.ApplyFilters` | ZeitTracker/client/src/pages/admin-dashboard.tsx:43-65 | the two-step narrowing stores exactly `Filtered(entries, name, date)` and leaves both inputs unchanged |
| `AdminDashboard.Dashboard.ClearFilters` | ZeitTracker/client/src/pages/admin-dashboard.tsx:67-71 | both inputs become `""` and the filtered list becomes empty |
| `AdminDashboard.Dashboard.DisplayEntries` | ZeitTracker/client/src/pages/admin-dashboard.tsx:74 | shows the filtered list when it is non-empty, otherwise every fetched entry |
| `AdminDashboard.TwoPassesAreOne` | ZeitTracker/client/src/pages/admin-dashboard.tsx:44-62 | narrowing by name and then by day equals one selection by both conditions |
| `AdminDashboard.FilteredSelects` | ZeitTracker/client/src/pages/admin-dashboard.tsx:44-64 | with both inputs empty the result is an unchanged copy; otherwise an entry is kept iff it passes every non-empty filter (substring name match, half-open day); multiplicities and order are kept |
| `AdminDashboard.NoMatchShowsAll` | ZeitTracker/client/src/pages/admin-dashboard.tsx:74 | when the filters match no entry, the table is given every entry |
| `AdminDashboard.DashboardAgreesWithServer` | ZeitTracker/client/src/pages/admin-dashboard.tsx:52-61 | with both inputs set, the dashboard selects from any list exactly what the server's name-and-date query selects |
| `Home.RecentEntries` | ZeitTracker/client/src/pages/home.tsx:24-33 | with an empty employee name the query is disabled and the list is empty; otherwise it is the selection |
| `Home.SelectMembers` | ZeitTracker/client/src/pages/home.tsx:30 | only fetched entries whose whole name equals the employee's name case-insensitively are listed, and none more often than fetched |
| `Home.SelectNewest` | ZeitTracker/client/src/pages/home.tsx:31-32 | the list is newest first, holds min(5, number of own entries) entries, and no omitted own entry is newer than a listed one |
| `Home.HomeEntriesPassNameFilter` | ZeitTracker/client/src/pages/home.tsx:30 | every entry listed for a name also passes the admin dashboard's substring filter for that name |
| `EntryType.DisplayLabel` | ZeitTracker/client/src/components/admin/entries-table.tsx:76 | "Kommen" is shown as "Einstempeln" and "Gehen" as "Ausstempeln"; every other type is shown unchanged (the same mapping is at recent-entries.tsx line 32) |
| `EntryType.LabelAgreesWithIcon` | ZeitTracker/client/src/components/admin/entries-table.tsx:66-76 | a type is shown as a clock-in iff its label reads "Einstempeln", and every other string, unknown ones included, is a clock-out; relabelling is idempotent |
| `EntriesTable.RowOf` | ZeitTracker/client/src/components/admin/entries-table.tsx:62-92 | a row shows the entry's name, label, clock-in flag, time, position and "Ja"/"Nein" for the driver flag |
| `EntriesTable.RowsOf` | ZeitTracker/client/src/components/admin/entries-table.tsx:61 | one row per entry, in the order given |
| `EntriesTable.Render` | ZeitTracker/client/src/components/admin/entries-table.tsx:16-41 | loading is checked before error and error before empty, and the table is shown only when none of them applies |
| `EntriesTable.TableCorrect` | ZeitTracker/client/src/components/admin/entries-table.tsx:44-99 | the table rows come from a newest-first permutation of the entries, and the count line is "Anzeige 1-n von n Einträgen" with n the number of entries |
| `EntriesTable.CountReadsBack` | ZeitTracker/client/src/components/admin/entries-table.tsx:99 | both numbers printed in the count line read back as the number of entries |
| `RecentEntries.ItemOf` | ZeitTracker/client/src/components/recent-entries.tsx:24-34 | an item shows the entry's label, its clock-in flag and its time |
| `RecentEntries.ItemsOf` | ZeitTracker/client/src/components/recent-entries.tsx:20 | one item per entry, in the order given |
| `RecentEntries.Render` | ZeitTracker/client/src/components/recent-entries.tsx:12-39 | an empty list shows only "Keine Einträge gefunden."; otherwise there is exactly one item per entry, in input order, with no filtering or reordering |

## Left out

- `DatabaseStorage` and `initializeDefaultAdmin` (storage.ts lines 18-80 and 174-196): Postgres queries through Drizzle. Their `LIKE` match belongs to the database and is not the in-memory match.
- The handlers in `routes.ts` call the exported `storage`, which is a `DatabaseStorage` (storage.ts line 193). `Routes.HandleGetTimeEntries`, `Routes.HandleCreateTimeEntry` and `Routes.HandleAdminLogin` are modelled over `MemStorage` instead. So their case-insensitive name match and the empty result for an unparseable date describe the in-memory store. The database store's `LIKE` with a lower-cased pattern matches case-sensitively, and its behaviour on an Invalid Date is not modelled.
- Date parsing and time zones: `new Date(text)` is the parameter `parse`. Local midnight, `setHours`, `setDate` and daylight-saving days are not modelled. A day is a fixed 86 400 000 ms counted from millisecond 0.
- `Text.LowerChar` and `Text.Lower`: lower-case only ASCII letters and the Latin-1 capitals U+00C0–U+00DE (umlauts included). JavaScript's full Unicode case mapping is not modelled, including the mappings that change a string's length.
- `Chronology.SortNewestFirstCorrect`: states the permutation and the order but not stability. The model sorts stably, as `Array.prototype.sort` does, but that is not proved.
- Latitude and longitude are `real` values and are never inspected. The Google Maps link text and `formatDate` (not part of this model) are left out.
- Validation library internals: the `fromZodError` message text is left out, and the 400 answer carries the offending keys instead. A JSON body cannot carry a `Date`, so a `timestamp` sent over HTTP as a string fails `z.date()` in the source. The model accepts only a date value there (`Schema.JDate`).
- `insertAdminSchema` is used by no handler. Only its payload shape `Schema.InsertAdmin` is modelled.
- Query parameters given as arrays (for example `?name=a&name=b`) are not modelled. A `name` array has no `toLowerCase`, so the store call throws and the answer is status 500. A `date` array given alone is turned into text by `new Date(...)`, which does not throw, so the answer is 200. The list is empty unless the array's text parses as a date (a one-element array such as `?date[]=2024-01-01` selects that day).
- A JSON body that is not an object (an array or a bare value) is not modelled. `Schema.Body` is always a key-value map. In the source `safeParse` rejects such a body, and the answer is 400.
- Store failures: `MemStorage` never fails. The status-500 mapping is modelled by `Routes.ListResponse`, `Routes.CreateResponse` and `Routes.LoginResponse`, which take the store outcome as a `Result`.
- Counters are unbounded integers. JavaScript numbers lose precision above 2^53, which is not modelled.
- `async`/`await`, React Query (refetch intervals, caching, the `isLoading`/`isError` flags, which are inputs here), `localStorage`, toasts, navigation and all markup are left out. So are `clock-form.tsx`, `use-geolocation.ts`, `admin-login.tsx`, `App.tsx`, `header.tsx`, `filter-controls.tsx` and `footer.tsx`.
- Passwords are compared as plain strings. No security property is modelled.
