# ECOShakti dashboard state, modelled in Dafny

ECOShakti is a home solar-energy dashboard. Its only decision logic is the
session state of the `Dashboard` component in `client/src/App.js`, and this
project models that state:

- **The power series (`powerData`).** `handleAddData` coerces the form's numeric
  fields with `Number(x) || 0`. It appends the point and re-sorts the whole series
  by its `time` label with a stable sort.
- **The event log (`eventLog`).** Each manual entry puts a "Manual Entry"/"Logged"
  record at the head, with id `length + 1`.
- **The notifications (`notifications`).** "Mark all as read" sets every `read`
  flag, and the header badge counts the unread ones.
- **The derived card values.** These are the latest reading, the battery
  percentage, live generation and consumption, grid status and colour, and the
  battery trend label.
- **The data-entry form.** A submission with an empty time is refused with an
  alert. Any other submission forwards the four fields to `handleAddData` and
  clears them.

Modules:

- `TimeOrder` (time_order.dfy) holds the comparison of time labels.
- `PowerSeries` (power_series.dfy) holds readings, coercion, the stable sort as a
  specification function, the in-place insertion sort proved equal to it, and
  the lemmas about sorting.
- `EventLog` (event_log.dfy) and `Notifications` (notifications.dfy) hold the
  other two collections.
- `DashboardStatus` (dashboard_status.dfy) holds the derived values.
- `DashboardState` (dashboard.dfy) holds the classes `Dashboard` and
  `DataEntryForm`, whose methods are the handlers, and `SubmitForm`, which wires
  the form to the dashboard.
- `Wrappers` (wrappers.dfy) holds `Option`.

Three choices shape the model:

- **The sort.** The source sorts with `Array.prototype.sort`, which is stable.
  `StableSortUnique` proves that a stable sort's result is fully determined:
  only one sorted arrangement keeps every group of equal times in input order.
  So the insertion sort in `SortByTime` returns exactly what the engine's sort
  returns.
- **Time order.** `localeCompare` on `time` is modelled as lexicographic order by
  character code. The form's time input produces zero-padded `HH:MM` labels, and
  on those the two orders agree.
- **Numbers.** `Number(text)` is a parameter `number: string -> Option<int>`,
  where `None` stands for NaN. `OrZero` is the `|| 0` that follows it.

## Model

| member | source | states |
|---|---|---|
| `TimeOrder.Compare` | client/src/App.js:102 | The time comparator used by the sort. Its sign is -1, 0 or 1. |
| `TimeOrder.CompareZeroIffEqual` | client/src/App.js:102 | The comparator reports "equal" exactly for identical time labels. |
| `TimeOrder.CompareFlip` | client/src/App.js:102 | Swapping the arguments negates the result, so the order is antisymmetric and total. |
| `TimeOrder.CompareTransitive` | client/src/App.js:102 | "At or before" is transitive. This is the consistent-comparator condition a stable sort needs. |
| `TimeOrder.AtOrBeforeBothWaysEqual` | client/src/App.js:102 | Two labels that are each at or before the other are the same label. |
| `PowerSeries.OrZero` | client/src/App.js:97-99 | `Number(x) \|\| 0` is 0 exactly when the conversion fails (NaN) or gives 0. Otherwise it is the converted number. |
| `PowerSeries.Formatted` | client/src/App.js:95-100 | The reading built from a form point keeps `time` unchanged. Generation, consumption and battery are each `Number(field) \|\| 0`. |
| `PowerSeries.Insert` | client/src/App.js:102 | One insertion step of the stable sort by time. Its own contract gives only the length: one longer than the series. Its placement is stated by `InsertShape`, its contents by `InsertPermutation` and its order by `InsertKeepsSorted` and `InsertGroups`. |
| `PowerSeries.StableSort` | client/src/App.js:102 | The sort of the series by `time`, as a stable insertion sort. Its own contract gives only the length: the same as the input. `StableSortSorted`, `StableSortPermutation`, `StableSortStable` and `StableSortUnique` state what it computes. |
| `PowerSeries.InsertShape` | client/src/App.js:102 | One insertion step puts the new reading after the rightmost reading not later than it. Every reading after it is strictly later. |
| `PowerSeries.InsertPermutation` | client/src/App.js:102 | One insertion step adds exactly the new reading, as a multiset. |
| `PowerSeries.InsertKeepsSorted` | client/src/App.js:102 | Inserting into a time-sorted series keeps it sorted. |
| `PowerSeries.InsertGroups` | client/src/App.js:102 | Inserting keeps each same-time group in order and appends the new reading to its own group. |
| `PowerSeries.SortedAllPairs` | client/src/App.js:102 | In a series sorted on neighbours, every earlier reading is at or before every later one. |
| `PowerSeries.StableSortSorted` | client/src/App.js:102 | The sorted series is in non-decreasing time order and has the input's length, whatever the input's order. |
| `PowerSeries.StableSortPermutation` | client/src/App.js:102 | The sort returns exactly the input's readings, as a multiset. |
| `PowerSeries.StableSortStable` | client/src/App.js:102 | For every time label, the readings with that label keep their input order. |
| `PowerSeries.StableSortOfSorted` | client/src/App.js:102 | Sorting an already sorted series changes nothing. |
| `PowerSeries.SortedSameGroupsEqual` | client/src/App.js:102 | Two sorted series with the same same-time groups, each in the same order, are equal. |
| `PowerSeries.StableSortUnique` | client/src/App.js:102 | Any sorted arrangement that keeps every same-time group in input order is the model's sort. So the engine's stable sort returns the same series. |
| `PowerSeries.AddToSeries` | client/src/App.js:102 | Appending a point and sorting gives a sorted series that is the old series plus the point, as a multiset, one longer. Other time groups are unchanged, and the point lands after every reading with an equal time. |
| `PowerSeries.AddToSortedSeries` | client/src/App.js:102 | For a sorted old series, the result is the old series with the point inserted at one position. Readings before it are not later; readings after it are strictly later. |
| `PowerSeries.InitialPowerData` | client/src/App.js:15-28 | The seed series has twelve readings. None has negative generation or consumption, and every battery level is between 0 and 100. |
| `PowerSeries.InitialPowerDataSorted` | client/src/App.js:15-28 | The seed series is in time order. |
| `PowerSeries.InsertAt` | client/src/App.js:102 | In place on the array, moves element `i` into the prefix before it. The prefix becomes that insertion step's result and the rest of the array is unchanged. |
| `PowerSeries.SortByTime` | client/src/App.js:102 | Sorting the fresh array in place leaves exactly the stable sort of its old contents. |
| `EventLog.InitialEventLog` | client/src/App.js:30-36 | The seed log has five records, newest first, with ids 1 to 5 from the head down. |
| `EventLog.WithManualEntry` | client/src/App.js:105-113 | The new log has one more entry. Its head is "Manual Entry"/"Logged"/"gray" at the given time, with id old length + 1. The rest is the old log unchanged. |
| `EventLog.ManualEntryKeepsIdsExact` | client/src/App.js:105-113 | If the ids were distinct and exactly 1..n, then after a manual entry they are distinct and exactly 1..n+1. |
| `EventLog.InitialEventLogIdsExact` | client/src/App.js:30-36 | The seed log's ids are distinct and exactly 1..5. |
| `Notifications.MockNotifications` | client/src/App.js:48-52 | The seed list has three notifications, with ids 1, 2 and 3 in that order. |
| `Notifications.Unread` | client/src/App.js:126 | The `filter(n => !n.read)`: a notification is in the result exactly when it is in the list and unread. The result is no longer than the list. |
| `Notifications.UnreadMultiset` | client/src/App.js:126 | Each unread notification occurs in the filter's result as often as in the list, and a read one never occurs. |
| `Notifications.UnreadAppend` | client/src/App.js:126 | Filtering two joined lists gives the two filtered lists joined, so the filter keeps the list's order. |
| `Notifications.UnreadLengthIsUnreadFlags` | client/src/App.js:126 | The filter's result has one entry for each notification whose `read` flag is false. |
| `Notifications.UnreadCount` | client/src/App.js:126 | The badge count is the number of notifications whose `read` flag is false, so it never exceeds the list's length. |
| `Notifications.UnreadCountZeroIff` | client/src/App.js:126 | The count is 0 exactly when every notification is read. |
| `Notifications.UnreadCountFullIff` | client/src/App.js:126 | The count equals the length exactly when no notification is read. |
| `Notifications.UnreadCountAppend` | client/src/App.js:126 | The count of two lists joined is the sum of their counts. |
| `Notifications.MarkedAllRead` | client/src/App.js:122-124 | Marking all read keeps length, order, ids, titles, messages and timestamps, and sets every `read`. |
| `Notifications.MarkedAllReadNoneUnread` | client/src/App.js:122-126 | After marking all read, the unread count is 0. |
| `Notifications.MarkedAllReadIdempotent` | client/src/App.js:123 | Marking all read twice equals marking once. |
| `Notifications.MarkedAllReadOfRead` | client/src/App.js:123 | A list that is all read is left unchanged. |
| `Notifications.MockNotificationsUnread` | client/src/App.js:48-52 | The seed notifications have 2 unread. |
| `DashboardStatus.Latest` | client/src/App.js:201 | The latest reading is missing exactly when the series is empty. Otherwise it is the tail. |
| `DashboardStatus.BatteryStatus` | client/src/App.js:202 | Battery is 0 with no reading, else the latest reading's battery. |
| `DashboardStatus.LiveGeneration` | client/src/App.js:212 | The generation card shows 0 with no reading, else the latest generation. |
| `DashboardStatus.LiveConsumption` | client/src/App.js:213 | The consumption card shows 0 with no reading, else the latest consumption. |
| `DashboardStatus.GridStatus` | client/src/App.js:203 | "Exporting" exactly when there is a latest reading whose generation exceeds its consumption. Otherwise "Importing", including for an empty series. |
| `DashboardStatus.GridColor` | client/src/App.js:204 | Green exactly when the status is "Exporting", red otherwise. |
| `DashboardStatus.BatteryTrend` | client/src/App.js:214 | "Full" exactly when the battery is above 99, else "Charging". |
| `DashboardStatus.LatestHasLatestTime` | client/src/App.js:201 | In a sorted series, every reading is at or before the latest one. |
| `DashboardStatus.AddedLatestIsShown` | client/src/App.js:94-103 | Adding a reading at or after every existing time makes it the latest. The battery card then shows its battery, and grid status is "Exporting" exactly when its generation exceeds its consumption. |
| `DashboardStatus.AddedEarlierLeavesLatest` | client/src/App.js:94-103 | Adding a reading earlier than the latest one leaves the latest reading unchanged. |
| `DashboardState.Dashboard.constructor` | client/src/App.js:86-89 | A session starts from the seed series, log and notifications, with the invariant holding: series sorted, log ids exactly 1..n. |
| `DashboardState.Dashboard.HandleAddData` | client/src/App.js:94-114 | The new series is the stable sort of the old series plus the coerced point. It holds the old readings plus that point and, since the series was sorted, is the old series with the point inserted. The log gains the manual-entry head. Notifications are unchanged. |
| `DashboardState.Dashboard.MarkAllAsRead` | client/src/App.js:122-126 | Notifications become the all-read list and the unread count is 0. Series and log are unchanged. |
| `DashboardState.DataEntryForm.constructor` | client/src/App.js:240-244 | All four fields start empty. |
| `DashboardState.DataEntryForm.HandleSubmit` | client/src/App.js:246-251 | An empty time gives the "Please enter a time." alert and leaves the fields. Otherwise the four fields are forwarded as typed and all are reset to empty. |
| `DashboardState.SubmitForm` | client/src/App.js:225 | A rejected submission leaves the dashboard's series and log unchanged. An accepted one adds exactly the submitted point and one manual-entry record, once. |

## Left out

- Routing and authentication are not modelled: `App` (client/src/App.js:56-80), client/src/LoginPage.js, client/src/RegisterPage.js and server/server.js. They are token storage, HTTP calls and server plumbing over libraries that are not shown.
- `handleLogout` (client/src/App.js:116-120) is not modelled. It removes the stored token, sets the `auth` flag that `App` owns to false and navigates to the login page. None of that touches the dashboard state modelled here.
- UI-only state is not modelled: `sidebarOpen`, `activeView`, `isNotificationOpen` and the notification panel's click-outside listener (client/src/App.js:85-90, 283-295). None of it affects the collections modelled here.
- `HistoryView` and `RingChart` (client/src/App.js:273-281) are not modelled. They are floating-point ratios and locale date formatting over constant data.
- Icons are dropped from events and notifications. They are JSX elements, and all rendering is left out.
- The browser `alert` is not shown. Its message is returned as `Rejected(alert)`.
- The text-input `onChange` setters are plain field writes on `DataEntryForm`.
- `Number(...)` is the parameter `number`, and the wall-clock label from `toLocaleTimeString` is the parameter `now`.
- Readings are integers. Fractional values that `Number` accepts are not modelled.
- `PowerSeries.Insert`: its own contract states only the length. Where the reading goes and what the result holds are separate lemmas, which keeps the sort's proofs small.
- `PowerSeries.StableSort`: its own contract states only the length. Sortedness, contents, stability and uniqueness are separate lemmas, for the same reason.
- `TimeOrder.Compare`: models `localeCompare` as character-code lexicographic order. Locale collation can differ from that on labels other than the zero-padded `HH:MM` that the form's time input produces.
- `PowerSeries.Formatted`: the spread `...newDataPoint` would also copy any extra fields of the point. The form sends only the four fields modelled.
- React's batched and deferred state updates are not modelled. Each handler acts on the current state as one atomic step.
