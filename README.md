# Plant-reminder store of plantmanager, modelled in Dafny

plantmanager is a mobile app that reminds its user to water house plants. The
logic lives in its store (`src/libs/storage.ts`). The store keeps a single user
record and a collection that maps each plant id to `{data, notificationId}`.
Both are held in the platform's key-value store. The store also books one-shot
reminders with the platform's notification scheduler.

The model has four modules:

- `PlantTypes` (`types.dfy`): the user, plant and stored-entry shapes. It also
  holds the platform collaborators as values: a `Calendar` of day-of-month,
  set-day-of-month and `HH:mm` functions, and the scheduler's `Trigger` and
  `Request`.
- `Reminder` (`reminder.dfy`): the pure arithmetic of `savePlant`. It covers
  the weekly interval `Math.trunc(7 / times)` and the next reminder instant,
  which uses *now*'s day of the month. It also covers the delay `|now - next|`
  and the trigger, which is raised to at least one minute and never repeats.
- `Listing` (`listing.dfy`): what `loadPlant` returns. Each entry is shown with
  its derived `hour`. Entries are sorted by the whole second of
  `dateTimeNotification`, and the sort is proved to be a permutation.
- `Storage` (`storage.dfy`): the class `PlantStore`. Its fields are the user
  record, the plant map, the scheduler's log of accepted requests (a handle is
  its request's position in that log) and the set of live handles. Its methods
  are `SaveUser`, `GetUser`, `SavePlant`, `LoadPlant` and `RemovePlant`.
  `Valid()` is the store invariant: every entry is filed under its own id, it
  refers to a live notification scheduled for that same plant, and no two
  entries share a handle.

Times are whole milliseconds since the epoch. The calendar and the clock are
parameters: `now` is an argument of `SavePlant`, and `Calendar` is an argument
of `SavePlant` and `LoadPlant`. Every result therefore holds for any calendar.

The model does what the code does in two places where a reader might expect
something else:

- Saving a plant whose id is already stored keeps the old entry. The merge
  `{...newPlant, ...oldPlants}` lets the later spread win, so the entry is not
  replaced. The reminder that was just scheduled stays live, and no entry refers
  to it.
- `removePlant` on an unknown id fails when it reads `plants[id].notificationId`.
  This happens before any cancel or write. (An id that names a property every
  JavaScript object inherits, such as `toString`, behaves differently; see
  "Left out".) The model returns
  `Failed(UnknownPlant(id))` and leaves the state unchanged.

## Model

| member | source | states |
|---|---|---|
| `Reminder.Interval` | src/libs/storage.ts:66 | The weekly interval is `7 / times` truncated toward zero. The contract pins it down uniquely: its sign follows `times`, `0 <= days*times <= 7 < (abs(days)+1)*abs(times)`. |
| `Reminder.NextTime` | src/libs/storage.ts:61-70 | With rule "week" and `times > 0`, the next instant is the chosen instant with its day of the month set to now's day of the month plus `7 / times`. Any other rule leaves the chosen instant unchanged, whatever the clock or calendar. |
| `Reminder.NextTimeDependsOnDayOnly` | src/libs/storage.ts:67 | Two clock readings with the same day of the month give the same next instant. Only now's day enters the computation. |
| `Reminder.DelayMs` | src/libs/storage.ts:71-72 | The delay is the distance between now and the next instant: the next instant lies exactly that many ms before or after now. |
| `Reminder.PastAndFutureSameDelay` | src/libs/storage.ts:71-72 | A target `d` ms in the past and one `d` ms in the future both give delay `d`. |
| `Reminder.TriggerFor` | src/libs/storage.ts:84-87 | The trigger never repeats and is at least 60 000 ms. It equals the delay, or is exactly one minute when the delay is shorter. |
| `Reminder.TriggerClamp` | src/libs/storage.ts:85 | The trigger keeps the delay if and only if the delay is at least a minute. It is exactly one minute if and only if the delay is at most a minute. |
| `Reminder.ReminderTrigger` | src/libs/storage.ts:71-87 | For any plant, clock and calendar, the scheduled trigger is one-shot and at least a minute. It equals the distance to the next instant, or is exactly one minute when that distance is shorter. |
| `Listing.Seconds` | src/libs/storage.ts:125-130 | The comparator's key is the floor of the instant in seconds: `s*1000 <= t < s*1000 + 1000`, also for instants before the epoch. |
| `Listing.Shown` | src/libs/storage.ts:119-124 | A listed plant is its stored data with only `hour` changed, set to the `HH:mm` of its reminder instant. |
| `Listing.Insert` | src/libs/storage.ts:125-130 | Inserting into a list sorted by whole seconds keeps it sorted and adds exactly that plant (multiset). |
| `Listing.SortBySeconds` | src/libs/storage.ts:117-130 | The order of the comparator `floor(a/1000) - floor(b/1000)`: the output is non-decreasing in whole seconds and is a permutation of the input. |
| `Listing.EarlierSecondListedFirst` | src/libs/storage.ts:125-130 | In a sorted listing, an entry due in an earlier second comes before one due in a later second. |
| `Listing.SortKeepsElements` | src/libs/storage.ts:125-130 | A plant is in the sorted output if and only if it is in the input. |
| `Listing.SortedListing` | src/libs/storage.ts:117-130 | Sorting keeps every element equal to the display form of its stored entry, and keeps every id the unsorted listing covered. |
| `Listing.InsertKeepsIdsDistinct` | src/libs/storage.ts:125-130 | Inserting a plant whose id is new into a sorted listing with distinct ids keeps the ids distinct. |
| `Listing.SortKeepsIdsDistinct` | src/libs/storage.ts:117-130 | Sorting a listing with distinct ids keeps them distinct. |
| `Storage.StoredPicture` | src/libs/storage.ts:37 | The stored picture is empty if and only if the picture is absent or empty. Otherwise it is the picture given. |
| `Storage.UserOrDefault` | src/libs/storage.ts:48-51 | A stored record is returned as is. With no record the result is `{name: "Visitante", picture: ""}`. |
| `Storage.Merge` | src/libs/storage.ts:93-105 | The keys become the old keys plus the plant's id. An id already stored leaves the map equal to the old one. A new id maps to `{data: plant, notificationId: h}`. Every old entry is unchanged. |
| `Storage.PlantStore.Valid` | src/libs/storage.ts:25-30 | The collection's shape: every entry is filed under its own id, holds a handle the scheduler issued and still has live for that same plant, and no two entries share a handle. A consequence is stated: every stored handle was issued by the scheduler. |
| `Storage.PlantStore.constructor` | src/libs/storage.ts:91 | A fresh installation has no user record, an empty collection (what an absent blob reads as) and nothing scheduled, and the store invariant holds. |
| `Storage.PlantStore.SaveUser` | src/libs/storage.ts:32-39 | Overwrites only the user record, with `{name, picture or ""}`. A later `GetUser` returns exactly that record. |
| `Storage.PlantStore.GetUser` | src/libs/storage.ts:45-53 | Returns the stored record, or the default user when none was saved. A missing record is not an error. |
| `Storage.PlantStore.Schedule` | src/libs/storage.ts:74-88 | The scheduler appends the request to its log, returns a handle not given out before and marks it live. |
| `Storage.PlantStore.Cancel` | src/libs/storage.ts:144 | Cancelling a handle removes exactly that handle from the live set. |
| `Storage.PlantStore.SavePlant` | src/libs/storage.ts:59-105 | Schedules exactly one request `(plant, ReminderTrigger(plant, now, cal))` and its fresh handle becomes live. A new id adds exactly `id -> {plant, handle}`. A stored id leaves the collection unchanged. The store invariant is kept. |
| `Storage.PlantStore.LoadPlant` | src/libs/storage.ts:112-130 | Returns one element per stored id, each equal to the stored data with `hour` set to the `HH:mm` of its instant. No two elements share an id. The result is sorted by whole seconds. An empty collection gives an empty sequence. |
| `Storage.PlantStore.RemovePlant` | src/libs/storage.ts:138-147 | For a stored id, cancels exactly that entry's handle and leaves the map equal to the old map minus `id`. For an unknown id, fails and changes nothing. The store invariant is kept. |
| `Storage.SaveThenLoad` | src/libs/storage.ts:59-130 | After saving a plant under a new id, the listing contains that plant's display form. After re-saving a stored id, it contains the old entry's display form. |
| `Storage.RemoveThenLoad` | src/libs/storage.ts:138-147 | Removing an id succeeds exactly when it is stored, and a listing taken afterwards never contains that id. |

## Left out

- The key-value store and the notification scheduler (`AsyncStorage`, `expo-notifications`) are modelled only as fields of `PlantStore` with `Schedule` and `Cancel`. Reminders firing, and the scheduler forgetting one-shot notifications after they fire, are not modelled.
- JSON serialisation and parsing of the user and plant blobs are not modelled. The collection is a Dafny map, so the key order in the blob is not modelled. `loadPlant` re-sorts, and the model claims no order among entries due in the same second.
- Calendar arithmetic (`Date.setDate` with month roll-over, time zones) and date-fns `format` are left abstract. They are the fields of a `Calendar` argument, about which nothing is assumed.
- Floating point is not modelled. Instants and delays are whole milliseconds. The platform's trigger in seconds is `delayMs / 1000` and may be fractional. `Math.ceil` of a whole-millisecond difference is the identity. `frequency.times` is taken to be a whole number.
- Reminder.Interval: requires `times != 0`. Dividing by zero in the source gives `Infinity`, which the model does not represent.
- Reminder.NextTime: requires a nonzero `times` for a weekly rule (through `Schedulable`). The source's result for `times == 0` is an invalid date, which the model does not represent.
- Reminder.ReminderTrigger: requires a nonzero `times` for a weekly rule (through `Schedulable`). The source's trigger for `times == 0` is NaN seconds, which the model does not represent.
- Storage.PlantStore.SavePlant: requires `times != 0` for a weekly rule. The source computes `7 / 0 = Infinity`, which turns the date into an invalid one and the trigger into NaN. The model does not cover that path.
- The notification content is reduced to the plant in its payload. The title, body text, sound and priority are not modelled.
- Read and write failures of the key-value store, and scheduler rejections, are not modelled. This includes the handle leaked when a write fails after scheduling, and the re-throwing `catch` blocks. The only failure modelled is `removePlant` on an unknown id.
- Concurrency is not modelled. Overlapping `savePlant` and `removePlant` calls can lose an update because each does a read-modify-write of one key. Calls are modelled as atomic and sequential.
- `UserIdentification.tsx` and `Header.tsx` write and read a raw string under the user key, where `saveUser` and `getUser` use JSON. Those screens are not part of this model, and neither are the other screens and components (rendering, navigation, catalog fetches).
- Storage.PlantStore.RemovePlant: ids are assumed not to name a property every JavaScript object inherits (`toString`, `constructor`, ...). For such an id, `plants[id]` is defined and its `notificationId` is `undefined`. The source then cancels an undefined handle and writes the unchanged collection back instead of failing.
