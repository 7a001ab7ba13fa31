# Running club app: join protocol and race statistics

This project models two parts of a React running-club app that stores its data in a hosted Postgres database.

**Joining.** Three components let a signed-in user join something that has a capacity:
- the activity list joins an activity (`activities_…` / `activity_participants_…`);
- the running-group list joins a group (`running_groups_…` / `group_members_…`);
- the race registration modal registers for a race (`upcoming_races_…` / `race_registrations_…`).

Each handler does the same steps in order:
1. sign-in check;
2. duplicate check with `.single()`;
3. capacity check;
4. insert of a membership row;
5. write of "count + 1" to the entity row.

The handlers differ in where they read the count:
- activities re-read the row just before the check;
- groups take the count from the list shown on screen and do no capacity check;
- races take it from the race record passed to the modal.

`Enrolment.Join` is one specification of a join, parameterised by that count source. Each handler is an imperative method over a `Store` class that holds the two tables, and it is proved to end in exactly the state and outcome `Join` gives. Lemmas about `Join` then state:
- what a successful join writes;
- when occupancy stays within capacity;
- what breaks when the count read is stale;
- that "count equals number of rows" is kept or lost;
- that joining twice is a no-op.

**Race statistics.** The statistics card and the demo page compute the same summary over race records:
- the number of races;
- the total distance (a left fold);
- the best (least) pace;
- the mean distance.

The performance chart sorts a copy of the records by date and reads its label, pace and distance series from it. It keeps the chart instance in a ref. Finish times in minutes are rendered as `H:MM`.

The model proves:
- the summary does not depend on record order, so the chart's sorted copy has the same summary;
- the sort returns a sorted permutation and leaves sorted input unchanged;
- rendering a finish time can be read back to the same number;
- the demo page's eight samples give 8 races, 176.6 km, best pace 5.20 and a mean of 22.075 km.

Modules: `Wrappers` (Option), `Enrolment`, `Activities`, `RunningGroups`, `RegistrationModal`, `RaceStats`, `FinishTime`, `PerformanceChart`, `DemoStats`.

Modelling choices:
- The hosted store's answers are a `StoreReplies` parameter, one flag per request saying whether it fails.
- A membership table is a sequence of rows, because `.single()` answers only when exactly one row matches. A user listed twice is therefore not seen as a member.
- The lookup's `error` is never read by the handlers, so a failed lookup counts as "not a member".
- An update that matches no row changes nothing and raises no error.
- Dates are integer keys that sort like the dates (yyyymmdd).
- Distances and paces are reals.
- The model follows the code as written:
  - a failed count write after a successful insert leaves the membership row in place (`UpdateFailed`);
  - the group handler has no capacity check;
  - only the activity handler can report that the entity was not found.

## Model

| member | source | states |
|---|---|---|
| Enrolment.Join | src/components/activities.tsx:54-145 | Outcome and tables of one join. Unauthenticated exactly when no user is signed in. A membership the lookup finds gives AlreadyJoined with nothing changed. For a non-member, a failed or missing fresh read gives NotFound with nothing changed, and then a count that looks full (fresh row or race snapshot at or over capacity) gives Full with nothing changed. A signed-in non-member who gets past those checks is admitted: a failed insert gives InsertFailed with nothing written (no count write), a failed count write gives UpdateFailed, and a working store gives Joined. UpdateFailed and Joined append exactly one (entity, user) row, UpdateFailed without touching the counts. NotFound only for the fresh-read (activity) handler; Full never for the group handler |
| Enrolment.WriteOccupancy | src/components/activities.tsx:119-124 | The count write sets only the count of the row with that id, keeps its capacity and every other row, and adds no row when the id is missing |
| Enrolment.Store.FindMembership | src/components/activities.tsx:68-75 | The duplicate check finds a membership only when the request succeeds and exactly one matching row exists, and then that row is in the table |
| Enrolment.Store.ReadEntity | src/components/activities.tsx:85-93 | The row read returns the stored row exactly when the request succeeds and the id exists |
| Enrolment.Store.Insert | src/components/activities.tsx:108-116 | The insert appends the one membership row unless the request fails, and leaves the entity table alone |
| Enrolment.Store.UpdateOccupancy | src/components/activities.tsx:119-126 | The count write changes the entity table as WriteOccupancy says unless the request fails, and leaves the membership rows alone |
| Enrolment.JoinedWritesCountPlusOne | src/components/activities.tsx:108-126 | A successful join adds exactly one (entity, user) row and stores the count the handler read plus one, keeping capacity; no other entity changes |
| Enrolment.JoinKeepsCapacity | src/components/activities.tsx:95-102 | For a handler with a capacity check (the activity row re-read, or a race snapshot equal to the stored race row), reading a count that is still current and starting from 0 <= count <= capacity, every outcome keeps 0 <= count <= capacity |
| Enrolment.GroupJoinIgnoresCapacity | src/components/running-groups.tsx:73-98 | A non-member joins a group the store already holds at or over capacity, and the count ends above capacity |
| Enrolment.SnapshotLosesUpdates | src/components/registration-modal.tsx:63-82 | When registrations landed after the race snapshot was taken, a registration adds a row but lowers the stored count |
| Enrolment.JoinKeepsCountConsistent | src/components/activities.tsx:107-126 | With a current count read, "count equals number of rows" holds after the join for every entity, except after UpdateFailed, where the joined entity has one row more than its count |
| Enrolment.RejoinIsNoOp | src/components/activities.tsx:68-82 | Starting from no row for the user and with a working store on both attempts, joining again after a successful join gives AlreadyJoined and changes nothing, whatever the count source |
| Enrolment.RejoinWithFailedLookupDuplicates | src/components/activities.tsx:68-75 | The lookup's error is not read. If the lookup fails on the second attempt after a successful join, the user is not seen as a member: the result is never AlreadyJoined, and with the group handler's source it is Joined. A second admission leaves two rows for the user, after which the `.single()` lookup no longer finds them |
| Enrolment.TwoSeatsThreeUsers | src/components/activities.tsx:54-145 | Three users join an activity with two places: the first two get in, the third is told it is full, and the activity ends with count 2 and two rows |
| Enrolment.JoinButton | src/components/activities.tsx:199-210 | The button is disabled exactly while this entity's join is in flight or the entity is full, and otherwise enabled with the join label. It reads "Joining..." exactly while the join is in flight, and shows the full label exactly when it is not in flight and the entity is full. It uses the secondary style exactly when the entity is full |
| Activities.ActivityButton | src/components/activities.tsx:199-210 | The activity button is disabled exactly while its join is in flight or the activity is full, with the labels "Joining...", "Activity Full" and "Join Activity" in that priority |
| Activities.ActivityList.HandleJoinActivity | src/components/activities.tsx:54-145 | handleJoinActivity ends with the outcome and tables of Join with a fresh read; it shows exactly one toast for that outcome; the joining marker is cleared unless sign-in failed, in which case it is never set; the listed rows are untouched |
| Activities.ActivityList.JoinSteps | src/components/activities.tsx:66-134 | The requests inside the `try` block (lookup, fresh read, insert, count write) end in the outcome and tables of Join with a fresh read |
| Activities.ActivityJoinKeepsCapacity | src/components/activities.tsx:84-102 | Because the row is re-read, an activity is never overfilled, even when the listed row is stale. The handler reports Full exactly when a signed-in non-member finds the re-read row at capacity |
| RunningGroups.FindGroup | src/components/running-groups.tsx:95 | `groups.find` returns a listed group with the requested id, and returns nothing exactly when no listed group has that id |
| RunningGroups.FindGroupIsFirst | src/components/running-groups.tsx:95 | The group `find` returns is the first one in the list with that id |
| RunningGroups.GroupButton | src/components/running-groups.tsx:171-182 | The group button is disabled exactly while its join is in flight or the listed group is full, with the labels "Joining...", "Group Full" and "Join Group" in that priority |
| RunningGroups.GroupList.HandleJoinGroup | src/components/running-groups.tsx:52-117 | handleJoinGroup ends with the outcome and tables of Join, using the listed member count; it never reports NotFound or Full; it shows one toast for the outcome; the joining marker is reset as in the activity handler |
| RunningGroups.GroupList.JoinSteps | src/components/running-groups.tsx:64-106 | The requests inside the `try` block (lookup, insert, write of the listed count plus one) end in the outcome and tables of Join with that cached count |
| RunningGroups.EnabledButtonKeepsCapacity | src/components/running-groups.tsx:171-182 | When the listed row is current and its button is enabled, a join keeps member_count <= max_members: the button is the only guard |
| RunningGroups.StaleListOverfills | src/components/running-groups.tsx:93-96 | A stale listed count one below max enables the button of a group the store holds full. The join succeeds, leaving max + 1 member rows while the count reads max |
| RegistrationModal.Modal.IsOpenChanged | src/components/registration-modal.tsx:30-35 | Closing the modal clears the error and the loading flag; opening it leaves both alone |
| RegistrationModal.Modal.View | src/components/registration-modal.tsx:37-153 | A closed modal renders nothing. An open one shows max - current spots; an error box showing the error text exactly when that text is set; both buttons disabled exactly while loading; and "Registering..." while loading, otherwise "Confirm Registration" |
| RegistrationModal.Modal.HandleRegistration | src/components/registration-modal.tsx:39-94 | handleRegistration ends with the outcome and tables of Join with the race snapshot and never reports NotFound. The error text matches the outcome; loading is false afterwards unless sign-in failed; onSuccess then onClose are called exactly on success |
| RegistrationModal.Modal.RegisterSteps | src/components/registration-modal.tsx:48-87 | The requests inside the `try` block (lookup, check against the race record, insert, count write) end in the outcome and tables of Join with the race snapshot |
| RegistrationModal.FullIffNoSpotsShown | src/components/registration-modal.tsx:63-66 | For a signed-in non-member with a working store, the handler reports the race full exactly when the modal shows no spots remaining |
| RaceStats.BestPace | src/components/race-stats/race-chart.tsx:76 | `Math.min` over the paces is no greater than any record's pace and is the pace of some record |
| RaceStats.CalculateStats | src/components/race-stats/race-chart.tsx:73-85 | The summary holds the record count and the distance total, has mean * count == total, and has as best pace the least pace of the records |
| RaceStats.TotalDistanceConcat | src/components/race-stats/race-chart.tsx:75 | The distance total of a concatenation is the sum of the totals |
| RaceStats.TotalDistancePermutation | src/components/race-stats/race-chart.tsx:75 | Reordering the records leaves the distance total unchanged |
| RaceStats.BestPacePermutation | src/components/race-stats/race-chart.tsx:76 | Reordering the records leaves the best pace unchanged |
| RaceStats.StatsPermutation | src/components/race-stats/race-chart.tsx:73-85 | Two orderings of the same records give the same summary |
| Activities.ActivityList.constructor | src/components/activities.tsx:24-26 | The list starts with the given activity rows, no join in flight and no toasts |
| RunningGroups.GroupList.constructor | src/components/running-groups.tsx:23-25 | The list starts with the given group rows, no join in flight and no toasts |
| RegistrationModal.Modal.constructor | src/components/registration-modal.tsx:25-28 | The modal starts with the given `isOpen`, not loading, with an empty error and no callbacks called |
| RaceStats.RaceChart.constructor | src/components/race-stats/race-chart.tsx:27-34 | The card starts loading, with no records and all-zero stats |
| RaceStats.RaceChart.UserChanged | src/components/race-stats/race-chart.tsx:36-40 | The user effect requests records only for a signed-in user, then stops loading. It stores the returned data unless the request failed or returned none, and a failure adds exactly one error toast |
| RaceStats.RaceChart.RaceDataChanged | src/components/race-stats/race-chart.tsx:42-46 | The data effect recomputes the stats from the records when there are any, and otherwise keeps the old stats |
| RaceStats.RaceChart.View | src/components/race-stats/race-chart.tsx:87-152 | The sign-in prompt shows exactly when no user is signed in; a signed-in user sees the spinner while loading, then "No Race Data" when there are no records, and otherwise the dashboard with the `stats` state on the cards and the records passed to the chart |
| FinishTime.Decimal | src/components/race-stats/race-chart.tsx:171 | `String(n)` is a non-empty string of decimal digits, one digit long exactly when n < 10 |
| FinishTime.DecimalRoundTrip | src/components/race-stats/race-chart.tsx:171 | Reading the decimal text of n gives n |
| FinishTime.MinutesFieldRoundTrip | src/components/race-stats/race-chart.tsx:171 | The padded minutes field is always two characters and reads back as the minutes |
| FinishTime.FinishTimeRoundTrip | src/components/race-stats/race-chart.tsx:171 | Reading the rendered finish time of any t >= 0 gives t back |
| FinishTime.FinishTimeFields | src/components/race-stats/race-chart.tsx:171 | The rendered time is the hours t / 60, then ':', then two digits that read as t mod 60 < 60, so 60 * hours + minutes == t |
| FinishTime.FormatFinishTimeInjective | src/components/race-stats/race-chart.tsx:171 | Two different non-negative finish times never render the same |
| PerformanceChart.InsertByDate | src/components/race-stats/race-performance-chart.tsx:34-36 | Inserting a record into a date-sorted sequence keeps it sorted and adds exactly that record |
| PerformanceChart.SortByDate | src/components/race-stats/race-performance-chart.tsx:34-36 | The sorted copy is in ascending date order and has the same records, each as often as before |
| PerformanceChart.SortKeepsSortedInput | src/components/race-stats/race-performance-chart.tsx:34-36 | Records already in date order come out of the sort unchanged |
| PerformanceChart.PrepareChartData | src/components/race-stats/race-performance-chart.tsx:34-57 | The labels and both series are as long as the data and ascend by date; point i of the labels, the pace series and the distance series is the date, pace and distance of record i of the sorted copy, so (with SortByDate) every record is plotted once |
| PerformanceChart.SortedCopyHasSameStats | src/components/race-stats/race-performance-chart.tsx:34-36 | The chart's sorted copy has the same summary as the records shown on the cards |
| PerformanceChart.ChartHost.constructor | src/components/race-stats/race-performance-chart.tsx:21 | The ref starts empty, with no chart built or destroyed |
| PerformanceChart.ChartHost.RunEffect | src/components/race-stats/race-performance-chart.tsx:23-140 | The effect does nothing without a canvas or data. Otherwise it destroys the held chart; with a drawing context it then builds a chart from the prepared data, holds it and registers a cleanup. The input array is untouched |
| PerformanceChart.ChartHost.Cleanup | src/components/race-stats/race-performance-chart.tsx:135-139 | The cleanup destroys the held chart and leaves the ref pointing at it |
| PerformanceChart.ChartHost.DataChanged | src/components/race-stats/race-performance-chart.tsx:23-140 | On a change of data React runs the previous cleanup and then the effect; the whole new state is given for every canvas, data and context case. In particular the previously held chart is destroyed twice whenever a cleanup ran and the effect gets past its guard, and with a drawing context a new chart is built from the new data and the serial counter advances by one |
| PerformanceChart.TooltipTextUnit | src/components/race-stats/race-performance-chart.tsx:83-90 | A tooltip line starts with the dataset label and ": ", ends in " min/km" exactly when the label contains "Pace", and ends in " km" otherwise |
| PerformanceChart.TooltipUnits | src/components/race-stats/race-performance-chart.tsx:84-89 | The pace dataset's tooltip unit is "min/km" and the distance dataset's is "km" |
| DemoStats.MinOf | src/pages/demo-stats.tsx:68 | `Math.min` over the mapped paces is no greater than any of them and is one of them |
| DemoStats.PageStatsAgree | src/pages/demo-stats.tsx:65-70 | For every non-empty list of records, the page's own count, `reduce`, `Math.min` over the mapped paces and recomputed mean give the same summary as the statistics card's calculateStats |
| DemoStats.SampleTotalDistance | src/pages/demo-stats.tsx:5-67 | The distances of the eight samples add up to 176.6 km |
| DemoStats.SampleStatsValues | src/pages/demo-stats.tsx:5-70 | The page's summary of the eight samples gives 8 races, 176.6 km, best pace 5.20 and mean distance 22.075 km |
| DemoStats.SampleFinishTimesRender | src/pages/demo-stats.tsx:133 | The first sample renders "4:05" and the fifth "0:52" |
| DemoStats.SampleDataAlreadySorted | src/pages/demo-stats.tsx:5-62 | The samples are listed in date order, so the chart's sorted copy is the list itself |

## Left out

- Network I/O: the store's answers are the `StoreReplies` parameter. The list refreshes after a join (`fetchActivities`, `fetchGroups`) and the race list refresh the parent does in `onSuccess` are not modelled.
- Sign-in: `isSignedIn && user` is an optional user id.
- Concurrency: each handler is one atomic step. The `joining…` state, which is visible only between awaits, appears only as its final value. Interleavings of two users show up only through stale counts (`StaleListOverfills`, `SnapshotLosesUpdates`).
- The random participation id of the activity handler, and the generated ids of the other tables, are not modelled.
- The `.order('race_date')` of the records request is not modelled; the chart sorts its own copy.
- Floating point: distances, paces and means are exact reals. `toFixed` rounding and `Number(...)` are left out, and so are the tooltip's `value.toFixed(2)` text and the `label || ''` fallback.
- Date parsing and `date-fns` formatting are left out; a date is an integer that orders as the date does.
- Chart.js options, scales and drawing are left out; a chart is its prepared data and a serial number.
- The loading flags and spinners of the activity and group lists are left out, as are the other pages, payments, navigation and the database seed script.
- RunningGroups.GroupList.HandleJoinGroup: requires the clicked group to be in the listed groups. The handler is reached only from a listed group's button, so that always holds. The `undefined + 1` (NaN) write the source would make otherwise is not modelled.
- RaceStats.RaceChart.UserChanged: the shape of malformed responses is not modelled. A response is "failed", "no data" or a list of records.
- FinishTime.FormatFinishTime: a finish time is an integer number of minutes; non-integer times, which JavaScript would render with a fractional minutes field, are not modelled.
- FinishTime.FinishTimeRoundTrip: stated for t >= 0 only. Negative times render with a '-' sign that the reader does not accept.
- PerformanceChart.SortByDate: the order among records with equal dates (the stability of `Array.prototype.sort`) is not stated.
