# Barbieri XRot 95 EVO dashboard — Dafny model

This project models the core of an offline-first web dashboard for the
Barbieri XRot 95 EVO remote-controlled mowing robot. The dashboard keeps the
machine's engine-hour counter (MTH, *motohodiny*), the service intervals
derived from it, service and operation records, the mowing areas (*areály*)
with their GPS positions, route planning over those areas, realtime
telemetry, a streaming AI assistant, exports to PDF, an Excel workbook and GPX, and a service
worker that caches the application for offline use.

What is modelled, module by module:

- `OfflineQueue` (`offline_queue.dfy`): the localStorage queue of pending
  writes (`pendingSync`). It covers saving online or offline, and the drain
  that replays entries in order, counts synced and failed writes and keeps
  a failed entry until its retry count reaches `MAX_RETRIES` (5).
- `MachineModel`, `Dashboard`, `SettingsPage`: loading the machine, the
  MTH update that refuses a value below the current counter, and the
  dashboard's telemetry forwarding
  and MTH sync throttle.
- `NewServicePage`, `NewOperationPage`, `ServiceDetailPage`: form guards,
  inserts, the MTH raise after a record, editing and deleting a record.
- `IntervalRules`, `IntervalsOverview`, `IntervalCard`,
  `NotificationCenter`, `ContextBuilder`: the four variants of the
  service-interval status. Each has its own thresholds and its own fallback
  for a missing last service.
- `Routing`, `Polyline`, `RoutePlanner`, `RoutePolyline`, `AreasPage`,
  `MarkerCluster`, `SessionRecorder`: the route cache and its keys, OSRM
  segment fetching, the nearest-neighbour route order, the Google polyline
  decoder, route editing, the map layer, clustering and GPS recording.
- `Export`: GPX documents, the service book's PDF rows and pagination, the
  cell values of the Excel sheets, and file names.
- `RealtimeClient`, `Assistant`, `ServiceWorker`, `ServicePage`,
  `ManualPage`: the telemetry client's connection state and listeners, the
  server-sent-event stream parser of the assistant page, the service worker
  caching strategies, the service list filters, and the manual search.
- `Common`, `Domain`, `Decimal`, `Strings`: shared definitions. These are
  options, the record types, JavaScript truthiness and `??`, fixed-point
  rendering of coordinates, and JavaScript string operations.

Remote writes to the database are never performed. Their outcomes are
parameters (a `bool`, or a `nat -> bool` indexed by the write's position),
and every method that writes returns the list of writes it issues, so
contracts can state which rows are written and in which order. Engine hours
and money are `real`; GPS coordinates are integers in units of 1e-5 degree
(see "Left out" for what that rounding changes).

The doc comment of `saveMthUpdate` (offline-queue.ts lines 87-90) says that
the new MTH value is checked against the current one. The code performs no
such check. The model follows the code: `OfflineQueue.PendingQueue.SaveMthUpdate`
queues any value, and only `MachineModel.MachineStore.UpdateMth`
(machine-hooks.ts) refuses a value below the current counter.

## Model

| member | source | states |
|---|---|---|
| OfflineQueue.CountsPartition | 05_INFRASTRUCTURE/offline/offline-queue.ts:131-168 | Every drained item is counted once, as synced or as failed. |
| OfflineQueue.KeptOnlyFailures | 05_INFRASTRUCTURE/offline/offline-queue.ts:157-164 | Only failed items are kept for another attempt, so no more than the failure count. |
| OfflineQueue.KeptAppend | 05_INFRASTRUCTURE/offline/offline-queue.ts:135-165 | The kept list of a concatenation is the concatenation of the kept lists: items are judged one at a time, in order. |
| OfflineQueue.KeptMembers | 05_INFRASTRUCTURE/offline/offline-queue.ts:157-164 | An item is kept exactly when its write failed and its retry count after the increment is still below `MAX_RETRIES`, and it is kept with that count. |
| OfflineQueue.SyncedRemoved | 05_INFRASTRUCTURE/offline/offline-queue.ts:135-156 | With distinct ids, an item whose write succeeded is not in the queue afterwards. |
| OfflineQueue.RetryExhaustion | 05_INFRASTRUCTURE/offline/offline-queue.ts:157-164 | After n failed drains an item is still queued exactly when its retries plus n stay below `MAX_RETRIES` (5, line 15). |
| OfflineQueue.WritesFor | 05_INFRASTRUCTURE/offline/offline-queue.ts:137-155 | One write per queued item, in queue order: a machine update for an MTH item, an insert into the service or operation table otherwise. |
| OfflineQueue.PendingQueue.GetPendingItems | 05_INFRASTRUCTURE/offline/offline-queue.ts:17-24 | A missing or unparsable store reads as the empty queue; otherwise the stored items. |
| OfflineQueue.PendingQueue.GetPendingCount | 05_INFRASTRUCTURE/offline/offline-queue.ts:171-173 | The count is the length of the queue as read. |
| OfflineQueue.PendingQueue.SavePendingItems | 05_INFRASTRUCTURE/offline/offline-queue.ts:26-29 | A successful write stores exactly the given items and signals `pending-sync-change` with their count; a failed write changes nothing. |
| OfflineQueue.PendingQueue.Enqueue | 05_INFRASTRUCTURE/offline/offline-queue.ts:45-56 | A stored record is appended at the end of the queue with zero retries. |
| OfflineQueue.PendingQueue.Save | 05_INFRASTRUCTURE/offline/offline-queue.ts:31-57 | Online, the write is attempted first and a success leaves the queue untouched; offline or after a failed write the record is queued. |
| OfflineQueue.PendingQueue.SaveServiceRecord | 05_INFRASTRUCTURE/offline/offline-queue.ts:31-57 | `saveServiceRecord`: an insert into the service table online, else the record is queued. |
| OfflineQueue.PendingQueue.SaveOperationRecord | 05_INFRASTRUCTURE/offline/offline-queue.ts:59-85 | `saveOperationRecord`: the same for the operation table. |
| OfflineQueue.PendingQueue.SaveMthUpdate | 05_INFRASTRUCTURE/offline/offline-queue.ts:91-125 | `saveMthUpdate`: a machine counter update online, else queued; no check of the value against the current counter. |
| OfflineQueue.PendingQueue.SyncPendingRecords | 05_INFRASTRUCTURE/offline/offline-queue.ts:127-169 | An empty queue gives (0, 0) and no writes; otherwise every item is written once, in order, the counts add up, and the new queue is exactly the kept failures. |
| OfflineQueue.PendingQueue.OnOnline | 05_INFRASTRUCTURE/offline/offline-queue.ts:175-189 | Coming back online drains a non-empty queue and announces `sync-complete` only when something was synced; when the queue cannot be written back, the store and the events stay as they were. |
| MachineModel.WithMth | 02_DIGITAL_TWIN/machine-model/machine-hooks.ts:57-62 | The updated machine keeps its id and carries the new counter and the update time. |
| MachineModel.AcceptedChainNonDecreasing | 02_DIGITAL_TWIN/machine-model/machine-hooks.ts:45-48 | A chain of accepted updates never lowers the counter: the values are non-decreasing and never below the start. |
| MachineModel.MachineStore.FetchMachine | 02_DIGITAL_TWIN/machine-model/machine-hooks.ts:11-40 | The fetched machine is stored; a missing row (code `PGRST116`) leaves no machine and no error; any other failure records the error. |
| MachineModel.MachineStore.UpdateMth | 02_DIGITAL_TWIN/machine-model/machine-hooks.ts:42-67 | Without a machine nothing happens; a value below the current counter is refused (an equal one is accepted); otherwise the write goes out or is queued, and the store follows. |
| SettingsPage.CheckMatchesHookGuard | 04_USER_INTERFACE/pages/SettingsPage.tsx:63-73 | The dialog accepts a value exactly when it parses, is not negative, and is not below the machine's counter, the same guard the machine hook applies. |
| SettingsPage.MthDialog.HandleUpdateMth | 04_USER_INTERFACE/pages/SettingsPage.tsx:63-86 | A refused value changes nothing and reports why; an accepted one is passed to the machine hook and the dialog closes only when the hook succeeds. |
| Dashboard.AutoSyncDecision | 04_USER_INTERFACE/pages/DashboardPage.tsx:27-33 | Telemetry is forwarded exactly when there is a machine, the telemetry counter is positive and above the stored one, and at least the sync interval has passed since the last forward. |
| Dashboard.ForwardedPassesGuard | 04_USER_INTERFACE/pages/DashboardPage.tsx:28-29 | A forwarded value always passes the machine hook's not-below guard (it is strictly above the counter). |
| Dashboard.DashboardEffects.OnTelemetry | 04_USER_INTERFACE/pages/DashboardPage.tsx:27-38 | Forwards exactly what `AutoSyncDecision` decides, and only then moves the time of the last forward. |
| Dashboard.DashboardEffects.StartTelemetrySync | 04_USER_INTERFACE/pages/DashboardPage.tsx:41-55 | The background sync is started once, only with a machine; at most one sync runs. |
| Dashboard.DashboardEffects.StopTelemetrySync | 04_USER_INTERFACE/pages/DashboardPage.tsx:57-61 | Unmounting stops the running sync. |
| NewServicePage.InsertRow | 04_USER_INTERFACE/pages/NewServicePage.tsx:79-85 | The inserted row carries the machine and the user; the date, counter, type, description and technician as entered; the firm, area and interval as entered when non-empty and `null` otherwise; the cost when truthy and `null` otherwise (a zero cost too). |
| NewServicePage.InsertRowColumns | 04_USER_INTERFACE/pages/NewServicePage.tsx:79-85 | The inserted row has exactly the eleven columns the insert names, no more. |
| NewServicePage.Submit | 04_USER_INTERFACE/pages/NewServicePage.tsx:71-95 | The schema (lines 24-34), then machine and user, then a counter not below 90% of the machine's and a date not in the future; only such a form is inserted, and the machine's counter is raised afterwards only when the record's is strictly higher. Nothing ever lowers it. |
| NewOperationPage.MthDelta | 04_USER_INTERFACE/pages/NewOperationPage.tsx:75 | The delta is present exactly when an end counter is given, and start plus delta is that end counter. |
| NewOperationPage.InsertRow | 04_USER_INTERFACE/pages/NewOperationPage.tsx:76-84 | The operation row with the start counter, the delta and the optional fields. |
| NewOperationPage.Submit | 04_USER_INTERFACE/pages/NewOperationPage.tsx:71-94 | The schema (lines 25-36), then machine and user, then the dates; an accepted form is inserted, and the machine's counter is raised afterwards exactly when the end counter is above it. Nothing ever lowers it. |
| ServiceDetailPage.CanEditLoaded | 04_USER_INTERFACE/pages/ServiceDetailPage.tsx:96 | A loaded record is editable exactly by an admin, a technician, or its author. |
| ServiceDetailPage.UnownedNeedsRole | 04_USER_INTERFACE/pages/ServiceDetailPage.tsx:96 | A record without an author is editable only by an admin or a technician. |
| ServiceDetailPage.CanEditBeforeLoad | 04_USER_INTERFACE/pages/ServiceDetailPage.tsx:96 | Before the record and the user are loaded the comparison `undefined === undefined` makes the page editable. |
| ServiceDetailPage.EditDataOf | 04_USER_INTERFACE/pages/ServiceDetailPage.tsx:98-112 | Editing starts from the record's description, counter and cost, and an empty firm when it has none. |
| ServiceDetailPage.EditPatch | 04_USER_INTERFACE/pages/ServiceDetailPage.tsx:129-139 | The patch writes the edited fields; an empty firm is written as `null`. |
| ServiceDetailPage.RecordSnapshotColumns | 04_USER_INTERFACE/pages/ServiceDetailPage.tsx:145-151 | The snapshot before a change carries the loaded record's id, description, counter and company, and the joined area name exactly when the record has one. |
| ServiceDetailPage.EditSnapshotMatchesPatch | 04_USER_INTERFACE/pages/ServiceDetailPage.tsx:129-150 | The snapshot after an edit has the patch's columns with the same values, except that an empty company stays `''` where the patch writes null. |
| ServiceDetailPage.AuditCallKeys | 04_USER_INTERFACE/pages/ServiceDetailPage.tsx:145-196 | The after-snapshot is passed exactly when given, the note exactly when given, and no other argument is. |
| ServiceDetailPage.AuditCall | 04_USER_INTERFACE/pages/ServiceDetailPage.tsx:145-196 | The audit entry is a call of `insert_audit_log` naming the table, the record, the kind of change and the snapshot before it, with the snapshot after it and the note when given. |
| ServiceDetailPage.CheckEdit | 04_USER_INTERFACE/pages/ServiceDetailPage.tsx:114-123 | Saving is allowed exactly when the description has at least 10 characters and the date is not in the future. |
| ServiceDetailPage.DeletePatch | 04_USER_INTERFACE/pages/ServiceDetailPage.tsx:176-181 | A deletion is a soft delete: the deletion flag, the user and the trimmed reason. |
| ServiceDetailPage.DeletePatchColumns | 04_USER_INTERFACE/pages/ServiceDetailPage.tsx:176-181 | The soft delete touches exactly the four deletion columns. |
| ServiceDetailPage.DuplicateRow | 04_USER_INTERFACE/pages/ServiceDetailPage.tsx:217-228 | The copy has the record's type, description, person, company, interval and area, but the machine's current counter, today's date and the current user. |
| ServiceDetailPage.DuplicateRowColumns | 04_USER_INTERFACE/pages/ServiceDetailPage.tsx:217-228 | The copy has exactly the ten columns the insert names; the cost is not copied. |
| ServiceDetailPage.DetailPage.StartEditing | 04_USER_INTERFACE/pages/ServiceDetailPage.tsx:98-112 | With a record, the edit form is filled from it and editing starts. |
| ServiceDetailPage.DetailPage.HandleSave | 04_USER_INTERFACE/pages/ServiceDetailPage.tsx:114-164 | A refused edit sends nothing; an allowed one sends the patch and, on success, the audit call of kind `editace` with the record's snapshot before and the form data after; it leaves editing only on success. |
| ServiceDetailPage.DetailPage.HandleDelete | 04_USER_INTERFACE/pages/ServiceDetailPage.tsx:166-212 | Without a trimmed reason nothing is sent; otherwise the soft delete and, on success, the audit call of kind `smazání` with the record's snapshot and the trimmed reason as its note, and navigation to `/servis`. |
| ServiceDetailPage.DetailPage.HandleDuplicate | 04_USER_INTERFACE/pages/ServiceDetailPage.tsx:214-236 | With record, machine and user, one insert of the copy and, on success, navigation back to the service list (`/servis`). |
| IntervalRules.EffectiveInterval | 04_USER_INTERFACE/components/dashboard/ServiceIntervalsOverview.tsx:66-69 | Before the first service a truthy first-service interval applies; otherwise the regular interval. |
| IntervalRules.Clamp | 04_USER_INTERFACE/components/dashboard/ServiceIntervalsOverview.tsx:73 | The result lies in [0, 100] and equals the input when it already does. |
| IntervalRules.PercentRemaining | 04_USER_INTERFACE/components/dashboard/ServiceIntervalsOverview.tsx:73 | No percentage (NaN) only for 0/0; otherwise a value in [0, 100]. |
| IntervalRules.PercentBounds | 04_USER_INTERFACE/components/dashboard/ServiceIntervalCard.tsx:27 | With a positive interval the bar is full exactly when the remaining hours reach the interval, and empty exactly when none remain. |
| IntervalsOverview.LastServiceIsMaximum | 04_USER_INTERFACE/components/dashboard/ServiceIntervalsOverview.tsx:44-64 | With the records sorted by counter, descending, the one found for an interval has the highest counter among that interval's records. |
| IntervalsOverview.OverviewStatus | 04_USER_INTERFACE/components/dashboard/ServiceIntervalsOverview.tsx:75-82 | Critical at or below 0 remaining hours, warning up to 20, ok above (thresholds in `06_SHARED/types/database.ts`). |
| IntervalsOverview.StatusOf | 04_USER_INTERFACE/components/dashboard/ServiceIntervalsOverview.tsx:62-84 | Next service = last service + effective interval, remaining = next - current, and the status and bar follow from those. |
| IntervalsOverview.IntervalsWithStatus | 04_USER_INTERFACE/components/dashboard/ServiceIntervalsOverview.tsx:59-86 | No rows before the intervals load; then one row per interval, in order. |
| IntervalsOverview.NextDue | 04_USER_INTERFACE/components/dashboard/ServiceIntervalsOverview.tsx:66-71 | The next service falls at the first-service mark before any service, else one interval after the last one. |
| IntervalsOverview.CountStatus | 04_USER_INTERFACE/components/dashboard/ServiceIntervalsOverview.tsx:88-92 | A status count never exceeds the number of rows. |
| IntervalsOverview.SummaryPartition | 04_USER_INTERFACE/components/dashboard/ServiceIntervalsOverview.tsx:88-92 | The ok, warning and critical counts add up to the number of intervals. |
| IntervalsOverview.ConfirmRecord | 04_USER_INTERFACE/components/dashboard/ServiceIntervalsOverview.tsx:105-114 | A quick confirmation is a preventive service at the current counter, for that interval, by the user's e-mail or "Neznámý". |
| IntervalsOverview.ConfirmRow | 04_USER_INTERFACE/components/dashboard/ServiceIntervalsOverview.tsx:105-114 | The inserted row carries the machine, the interval, today's date, the counter, the type `preventivní`, the description `Rychlé potvrzení: ` and the interval's name, the user's e-mail or `Neznámý`, and the user's id. |
| IntervalsOverview.ConfirmRowColumns | 04_USER_INTERFACE/components/dashboard/ServiceIntervalsOverview.tsx:105-114 | The inserted row has exactly those eight columns. |
| IntervalsOverview.ConfirmWrites | 04_USER_INTERFACE/components/dashboard/ServiceIntervalsOverview.tsx:100-114 | Nothing is written without a user or a machine; otherwise exactly one insert. |
| IntervalsOverview.ConfirmRestartsInterval | 04_USER_INTERFACE/components/dashboard/ServiceIntervalsOverview.tsx:105-114 | After a confirmation at a non-zero counter the interval restarts: last service = current counter, a full regular interval remaining, status as the overview judges a full interval. |
| IntervalCard.CardStatus | 04_USER_INTERFACE/components/dashboard/ServiceIntervalCard.tsx:30-37 | The card is critical at or below 0, warning up to 20% of the effective interval, ok above. |
| IntervalCard.Card | 04_USER_INTERFACE/components/dashboard/ServiceIntervalCard.tsx:13-37 | The card's next service, remaining hours, status and bar, from the last service or 0. |
| IntervalCard.CardWarningWithinOverview | 04_USER_INTERFACE/components/dashboard/ServiceIntervalCard.tsx:33 | For intervals up to 100 hours a card warning is also an overview warning. |
| IntervalCard.ThresholdsDiffer | 04_USER_INTERFACE/components/dashboard/ServiceIntervalCard.tsx:33 | The card and the overview disagree: 15 hours left on a 50-hour interval is a warning in the overview and ok on the card. |
| IntervalCard.CriticalAgrees | 04_USER_INTERFACE/components/dashboard/ServiceIntervalCard.tsx:31 | Card and overview agree on what is critical. |
| NotificationCenter.NoticeFor | 04_USER_INTERFACE/components/layout/NotificationCenter.tsx:68-91 | One notice per interval: critical at or below 0 remaining hours, warning up to 20% of the interval, none above; the base is the last service or the first-service mark (`??`). |
| NotificationCenter.Notices | 04_USER_INTERFACE/components/layout/NotificationCenter.tsx:68-92 | No more notices than intervals. |
| NotificationCenter.NoticesFromIntervals | 04_USER_INTERFACE/components/layout/NotificationCenter.tsx:68-92 | Every notice is the notice of some interval. |
| NotificationCenter.CriticalFirstPermutation | 04_USER_INTERFACE/components/layout/NotificationCenter.tsx:94 | Putting critical notices first loses and adds nothing. |
| NotificationCenter.CriticalFirstOrdered | 04_USER_INTERFACE/components/layout/NotificationCenter.tsx:94 | After the sort no warning precedes a critical notice. |
| NotificationCenter.AllNotifications | 04_USER_INTERFACE/components/layout/NotificationCenter.tsx:63-95 | Nothing without intervals or a machine; otherwise the interval notices, critical first. |
| NotificationCenter.Visible | 04_USER_INTERFACE/components/layout/NotificationCenter.tsx:97-100 | No dismissed notice is shown. |
| NotificationCenter.AddKey | 04_USER_INTERFACE/components/layout/NotificationCenter.tsx:102-109 | Dismissing adds the key to the set of dismissed keys, which stays free of repetitions. |
| NotificationCenter.DismissIdempotent | 04_USER_INTERFACE/components/layout/NotificationCenter.tsx:102-109 | Dismissing twice is dismissing once. |
| NotificationCenter.DismissHides | 04_USER_INTERFACE/components/layout/NotificationCenter.tsx:97-109 | Dismissing a key hides exactly the notices with that key. |
| NotificationCenter.Dedup | 04_USER_INTERFACE/components/layout/NotificationCenter.tsx:25 | `new Set(keys)`: the same keys, each once. |
| NotificationCenter.LoadKeys | 04_USER_INTERFACE/components/layout/NotificationCenter.tsx:22-29 | A missing or malformed stored value gives no dismissed keys; a stored list gives its keys, each once. |
| NotificationCenter.NotificationState.constructor | 04_USER_INTERFACE/components/layout/NotificationCenter.tsx:37 | The dismissed set starts as the stored one. |
| NotificationCenter.NotificationState.Dismiss | 04_USER_INTERFACE/components/layout/NotificationCenter.tsx:102-109 | Dismissing updates the set and persists it. |
| NotificationCenter.PersistRoundTrip | 04_USER_INTERFACE/components/layout/NotificationCenter.tsx:31-33 | Reading back what was persisted gives the same keys. |
| ContextBuilder.Recent | 03_AI_LOGIC/assistant/context-builder.ts:9-14 | Only the first `RECENT_LIMIT` records (the most recent ones) are used. |
| ContextBuilder.LineFor | 03_AI_LOGIC/assistant/context-builder.ts:29-43 | An interval's context line carries its name, interval and criticality, the first-service mark exactly when it is truthy, and the last matching record's counter. |
| ContextBuilder.IntervalLines | 03_AI_LOGIC/assistant/context-builder.ts:29-44 | One line per interval, in order. |
| ContextBuilder.OnlyRecentRecordsCount | 03_AI_LOGIC/assistant/context-builder.ts:9-14 | Records beyond the recent ones never change a line. |
| ContextBuilder.MatchedByName | 03_AI_LOGIC/assistant/context-builder.ts:30-33 | A record whose description mentions the interval's name, ignoring case, is taken as its last service when it comes first. |
| Routing.PairKeyShape | 06_SHARED/utils/routing.ts:12-14 | A coordinate pair's key is non-empty and holds no vertical bar, and its numbers hold no comma. |
| Routing.PairKeyInjective | 06_SHARED/utils/routing.ts:12-14 | Different waypoints have different keys. |
| Routing.CacheKeyInjective | 06_SHARED/utils/routing.ts:12-14 | Different waypoint lists have different cache keys. |
| Routing.OsrmCoordinatesLngFirst | 06_SHARED/utils/routing.ts:62-64 | The request's coordinate list splits back into one pair per waypoint, each longitude first. |
| Routing.Answer | 06_SHARED/utils/routing.ts:70-78 | A usable answer (code `Ok` with a route) gives the decoded geometry, the distance in km and the duration in minutes; anything else gives nothing. |
| Routing.Request | 06_SHARED/utils/routing.ts:66-85 | The response handling is `Answer`. |
| Routing.Fetch | 06_SHARED/utils/routing.ts:52-86 | Fewer than two waypoints give nothing and no request; a cached key answers without a request; otherwise one request, and only a usable answer is cached. |
| Routing.FetchCached | 06_SHARED/utils/routing.ts:57-60 | After a successful fetch the same route is answered from the cache without a request. |
| Routing.FailureNotCached | 06_SHARED/utils/routing.ts:67-71 | A failed answer is not cached, so the next fetch asks again. |
| Routing.SegmentIsFetch | 06_SHARED/utils/routing.ts:95-97 | Each segment is fetched like a two-point route, against the cache as it was before the batch. |
| Routing.SegmentResultsAt | 06_SHARED/utils/routing.ts:89-99 | The result for segment i is that segment's fetch. |
| Routing.SegmentsCacheKeys | 06_SHARED/utils/routing.ts:89-99 | The batch keeps every cached entry and adds only the usable answers of the segments. |
| Routing.RouteCache.FetchRoute | 06_SHARED/utils/routing.ts:52-86 | `fetchRoute` on the module's cache, as `Fetch` states it. |
| Routing.SegmentFetchAt | 06_SHARED/utils/routing.ts:95-97 | Result `i` of the segment call is what `fetchRoute` gives for waypoints `i` and `i + 1` against the cache at the start. |
| Routing.RouteCache.FetchSegment | 06_SHARED/utils/routing.ts:95-97 | One step of the segment loop: the result, the requests and the cache after segment `i` are those the specification functions give at `i + 1`. |
| Routing.RouteCache.FetchRouteSegments | 06_SHARED/utils/routing.ts:89-99 | `fetchRouteSegments`: one result per consecutive pair, and the cache as `SegmentsCache` states it. |
| Routing.NearestIndexSpec | 06_SHARED/utils/routing.ts:126-136 | The nearest unvisited area: none exactly when all are visited, else no unvisited area is strictly nearer and ties go to the first. |
| Routing.TourPermutation | 06_SHARED/utils/routing.ts:120-142 | The greedy tour visits every unvisited area exactly once. |
| Routing.TourGreedy | 06_SHARED/utils/routing.ts:126-141 | Each step goes to the nearest unvisited area. |
| Routing.GreedyTourCovers | 06_SHARED/utils/routing.ts:121-142 | The greedy tour from the first positioned area visits every positioned area exactly once (ids distinct). |
| Routing.RouteOrderPermutation | 06_SHARED/utils/routing.ts:112-145 | Optimising reorders the route without losing or adding an area. |
| Routing.RouteOrderShape | 06_SHARED/utils/routing.ts:115-144 | With more than two GPS areas the first one stays first and the areas without GPS follow at the end, in their order. |
| Routing.FindNearest | 06_SHARED/utils/routing.ts:127-136 | The inner loop finds what `NearestIndex` specifies. |
| Routing.GreedyTour | 06_SHARED/utils/routing.ts:120-142 | The outer loop builds the tour from the first GPS area. |
| Routing.OptimizeRouteOrder | 06_SHARED/utils/routing.ts:112-145 | `optimizeRouteOrder` computes `RouteOrder`. |
| Routing.BuildGoogleMapsUrl | 06_SHARED/utils/routing.ts:148-154 | A link only from two waypoints on: origin first, destination last, the others as waypoints separated by vertical bars. |
| Routing.MiddleEmpty | 06_SHARED/utils/routing.ts:152-153 | The waypoint list is empty exactly for two waypoints. |
| Routing.WaypointsRoundTrip | 06_SHARED/utils/routing.ts:152 | The waypoint parameter splits back into the middle waypoints, latitude first. |
| Polyline.ReadGroup | 06_SHARED/utils/routing.ts:27-33 | Each character read moves on by one; a read past the end contributes nothing and ends the value. |
| Polyline.ReadValue | 06_SHARED/utils/routing.ts:27-33 | The do-while loop of one value computes `ReadGroup`. |
| Polyline.DecodePolyline | 06_SHARED/utils/routing.ts:17-49 | `decodePolyline`'s loop computes `Decode`. |
| Polyline.ZigZagRoundTrip | 06_SHARED/utils/routing.ts:32-42 | The encoder's zig-zag step is undone by the decoder's. |
| Polyline.ReadEncoded | 06_SHARED/utils/routing.ts:27-33 | Reading an encoded value gives it back and stops right after it. |
| Polyline.DecodeEncodedAt | 06_SHARED/utils/routing.ts:24-47 | Decoding from the place where a point list's encoding starts gives the list back. |
| Polyline.DecodeEncode | 06_SHARED/utils/routing.ts:17-49 | The decoder inverts the Google polyline encoding of any list of points. |
| Polyline.DecodeEmpty | 06_SHARED/utils/routing.ts:23 | The empty text decodes to no points. |
| RoutePlanner.TotalAreaAdd | 04_USER_INTERFACE/components/route/RoutePlanner.tsx:41-44 | Adding an area adds exactly its surface, a missing one counting 0. |
| RoutePlanner.AvailableAreas | 04_USER_INTERFACE/components/route/RoutePlanner.tsx:81-84 | The areas offered are exactly those not yet on the route. |
| RoutePlanner.AddToRoute | 04_USER_INTERFACE/components/route/RoutePlanner.tsx:86-87 | The area is appended and the rest stays. |
| RoutePlanner.RemoveFromRoute | 04_USER_INTERFACE/components/route/RoutePlanner.tsx:92-93 | The area leaves the route, every other one stays, and nothing new appears. |
| RoutePlanner.RemoveSnoc | 04_USER_INTERFACE/components/route/RoutePlanner.tsx:92-93 | Removal goes element by element in order: an area is kept, at the end of what is kept so far, exactly when it is not the one removed. |
| RoutePlanner.RemoveAbsent | 04_USER_INTERFACE/components/route/RoutePlanner.tsx:92-93 | Removing an area that is not there changes nothing. |
| RoutePlanner.RemoveAfterAdd | 04_USER_INTERFACE/components/route/RoutePlanner.tsx:86-93 | Removing a just-added area gives the route back. |
| RoutePlanner.MoveUp | 04_USER_INTERFACE/components/route/RoutePlanner.tsx:96-103 | The area swaps with the one before; the first one stays; a permutation. |
| RoutePlanner.MoveDown | 04_USER_INTERFACE/components/route/RoutePlanner.tsx:105-112 | The area swaps with the one after; the last one stays; a permutation. |
| RoutePlanner.MoveUpThenDown | 04_USER_INTERFACE/components/route/RoutePlanner.tsx:96-112 | Moving up and then down again gives the route back. |
| RoutePlanner.MoveDownThenUp | 04_USER_INTERFACE/components/route/RoutePlanner.tsx:96-112 | Moving down and then up again gives the route back. |
| RoutePlanner.AddAllGps | 04_USER_INTERFACE/components/route/RoutePlanner.tsx:126-128 | Adding all keeps the route as its beginning. |
| RoutePlanner.AddAllGpsSnoc | 04_USER_INTERFACE/components/route/RoutePlanner.tsx:126-128 | The appended part follows the area list in order and takes an area exactly when it has a position and is not on the route yet. |
| RoutePlanner.AddAllGpsOnlyNew | 04_USER_INTERFACE/components/route/RoutePlanner.tsx:126-128 | Every appended area comes from the list, has a position and was not on the route. |
| RoutePlanner.AddAllGpsCovers | 04_USER_INTERFACE/components/route/RoutePlanner.tsx:126-128 | Afterwards every area with GPS is on the route. |
| RoutePlanner.AddAllGpsDistinct | 04_USER_INTERFACE/components/route/RoutePlanner.tsx:126-128 | No area is added twice. |
| RoutePlanner.AddAllGpsIdempotent | 04_USER_INTERFACE/components/route/RoutePlanner.tsx:126-128 | Adding all twice is adding all once. |
| RoutePlanner.Waypoints | 04_USER_INTERFACE/components/route/RoutePlanner.tsx:48-50 | The waypoints are the route's GPS areas, in route order. |
| RoutePlanner.MapsLink | 04_USER_INTERFACE/components/route/RoutePlanner.tsx:132-142 | The navigation link exists exactly from two GPS areas on and is `buildGoogleMapsUrl` of the waypoints. |
| RoutePlanner.FallbackDistance | 04_USER_INTERFACE/components/route/RoutePlanner.tsx:66-73 | Without a road answer the distance is the sum of the straight distances between consecutive waypoints. |
| RoutePlanner.FallbackTwoPoints | 04_USER_INTERFACE/components/route/RoutePlanner.tsx:68-71 | For two waypoints that is their distance. |
| RoutePlanner.ShownFor | 04_USER_INTERFACE/components/route/RoutePlanner.tsx:47-76 | Nothing below two waypoints; the road distance and time when the routing service answers; else the straight-line distance and no time. |
| RoutePlanner.Planner.Add | 04_USER_INTERFACE/components/route/RoutePlanner.tsx:86-87 | The route becomes `AddToRoute`; the shown distance is untouched until the next refresh. |
| RoutePlanner.Planner.Remove | 04_USER_INTERFACE/components/route/RoutePlanner.tsx:92-93 | The route becomes `RemoveFromRoute`. |
| RoutePlanner.Planner.Up | 04_USER_INTERFACE/components/route/RoutePlanner.tsx:96-103 | The route becomes `MoveUp`. |
| RoutePlanner.Planner.Down | 04_USER_INTERFACE/components/route/RoutePlanner.tsx:105-112 | The route becomes `MoveDown`. |
| RoutePlanner.Planner.Optimize | 04_USER_INTERFACE/components/route/RoutePlanner.tsx:114-118 | The route becomes `RouteOrder` of itself, a permutation of it. |
| RoutePlanner.Planner.ClearAll | 04_USER_INTERFACE/components/route/RoutePlanner.tsx:120-124 | The route is emptied. |
| RoutePlanner.Planner.AddAll | 04_USER_INTERFACE/components/route/RoutePlanner.tsx:126-130 | The route becomes `AddAllGps`. |
| RoutePlanner.Planner.Refresh | 04_USER_INTERFACE/components/route/RoutePlanner.tsx:47-79 | The effect: nothing below two waypoints, else one fetch and the panel as `ShownFor` states, unless cancelled. |
| RoutePolyline.Lines | 04_USER_INTERFACE/components/map/RoutePolyline.tsx:39-48 | Segment i is drawn as its road geometry, or as the straight line between waypoints i and i + 1 when its fetch failed. |
| RoutePolyline.CollectSegments | 04_USER_INTERFACE/components/map/RoutePolyline.tsx:39-48 | The loop over the results builds `Lines` and raises the flag exactly when some segment failed. |
| RoutePolyline.SegmentDrawn | 04_USER_INTERFACE/components/map/RoutePolyline.tsx:33-46 | The line drawn for each pair of consecutive waypoints is what that pair's fetch gives, or the straight line. |
| RoutePolyline.ApproximateIffFailure | 04_USER_INTERFACE/components/map/RoutePolyline.tsx:29-52 | The line is drawn dashed exactly when some segment's fetch gave nothing. |
| RoutePolyline.SegmentColor | 04_USER_INTERFACE/components/map/RoutePolyline.tsx:6-9 | Every segment gets a colour of the palette. |
| RoutePolyline.ColorsCycle | 04_USER_INTERFACE/components/map/RoutePolyline.tsx:69 | The colours repeat every ten segments. |
| RoutePolyline.PaletteDistinct | 04_USER_INTERFACE/components/map/RoutePolyline.tsx:6-9 | The ten palette colours are distinct. |
| RoutePolyline.NeighboursDiffer | 04_USER_INTERFACE/components/map/RoutePolyline.tsx:69 | Consecutive segments never share a colour. |
| RoutePolyline.Render | 04_USER_INTERFACE/components/map/RoutePolyline.tsx:60-77 | Nothing without segments; else one polyline per segment with its colour, all dashed exactly when approximate. |
| RoutePolyline.SegmentLayer.constructor | 04_USER_INTERFACE/components/map/RoutePolyline.tsx:16-17 | No segments, not approximate. |
| RoutePolyline.SegmentLayer.Load | 04_USER_INTERFACE/components/map/RoutePolyline.tsx:19-58 | Below two waypoints the segments are cleared; otherwise all segments are fetched and, unless cancelled, the layer shows `Lines` and the failure flag. |
| AreasPage.Toggle | 04_USER_INTERFACE/pages/AreasPage.tsx:111-117 | An area on the route leaves it, any other is appended; no other area's membership changes. |
| AreasPage.ToggleTwice | 04_USER_INTERFACE/pages/AreasPage.tsx:111-117 | Toggling an area twice from off the route gives the route back. |
| AreasPage.RouteIds | 04_USER_INTERFACE/pages/AreasPage.tsx:119 | The route's ids, in order. |
| AreasPage.RouteIdsMembership | 04_USER_INTERFACE/pages/AreasPage.tsx:119 | An id is listed exactly when an area of the route has it. |
| AreasPage.ToggleFlipsId | 04_USER_INTERFACE/pages/AreasPage.tsx:111-119 | Toggling flips the area's id in the list and leaves every other id. |
| AreasPage.FilteredAreas | 04_USER_INTERFACE/pages/AreasPage.tsx:78-88 | Nothing before loading; then exactly the areas that match the search (name or district, ignoring case) and both selectors. |
| AreasPage.NoFilterShowsAll | 04_USER_INTERFACE/pages/AreasPage.tsx:78-88 | With no search and both selectors on "all" every area is shown, in order. |
| AreasPage.TotalFenceAppend | 04_USER_INTERFACE/pages/AreasPage.tsx:91 | The fence total of a concatenation is the sum of the totals. |
| AreasPage.PageTotals | 04_USER_INTERFACE/pages/AreasPage.tsx:90-91 | Both totals are 0 before loading, then the sums over all areas. |
| AreasPage.TotalsOfOneMore | 04_USER_INTERFACE/pages/AreasPage.tsx:90-91 | One more area adds exactly its surface and fence length, a missing or zero value counting 0. |
| AreasPage.BelowIrreflexive | 04_USER_INTERFACE/pages/AreasPage.tsx:95 | The text order used by `sort()` is irreflexive. |
| AreasPage.BelowTotal | 04_USER_INTERFACE/pages/AreasPage.tsx:95 | Any two different texts are ordered. |
| AreasPage.BelowTransitive | 04_USER_INTERFACE/pages/AreasPage.tsx:95 | The text order is transitive. |
| AreasPage.BelowAsymmetric | 04_USER_INTERFACE/pages/AreasPage.tsx:95 | The text order is asymmetric. |
| AreasPage.Insert | 04_USER_INTERFACE/pages/AreasPage.tsx:95 | Inserting into a sorted list without repetitions keeps it so and adds exactly the element. |
| AreasPage.SortedSet | 04_USER_INTERFACE/pages/AreasPage.tsx:95 | `[...new Set(xs)].sort()`: sorted, without repetitions, the same values. |
| AreasPage.IncreasingUnique | 04_USER_INTERFACE/pages/AreasPage.tsx:95 | Two sorted lists without repetitions holding the same values are equal, so the result does not depend on how it is sorted. |
| AreasPage.TypeNames | 04_USER_INTERFACE/pages/AreasPage.tsx:95 | The non-empty types of the areas. |
| AreasPage.DistrictNames | 04_USER_INTERFACE/pages/AreasPage.tsx:100 | The present, non-empty districts of the areas. |
| AreasPage.UniqueTypes | 04_USER_INTERFACE/pages/AreasPage.tsx:93-96 | The type filter offers every non-empty type once, sorted. |
| AreasPage.UniqueDistricts | 04_USER_INTERFACE/pages/AreasPage.tsx:98-101 | The district filter offers every non-empty district once, sorted. |
| AreasPage.UniqueTypesCanonical | 04_USER_INTERFACE/pages/AreasPage.tsx:93-96 | Any sorted list of the distinct types is the list offered. |
| MarkerCluster.JoinersMeaning | 04_USER_INTERFACE/components/map/MarkerClusterGroup.tsx:36-46 | The markers that join a seed are exactly the later unassigned ones within the radius, in index order. |
| MarkerCluster.GroupsPartition | 04_USER_INTERFACE/components/map/MarkerClusterGroup.tsx:26-53 | The clusters partition the markers: each marker is in exactly one cluster. |
| MarkerCluster.GroupsSeeds | 04_USER_INTERFACE/components/map/MarkerClusterGroup.tsx:29-46 | Each cluster is seeded by the lowest marker not in an earlier cluster, and its other members are later markers within the radius of the seed. |
| MarkerCluster.StepGood | 04_USER_INTERFACE/components/map/MarkerClusterGroup.tsx:29-51 | The outer loop keeps the partition invariant. |
| MarkerCluster.ClusterOf | 04_USER_INTERFACE/components/map/MarkerClusterGroup.tsx:48-50 | A cluster sits at the mean position of its members. |
| MarkerCluster.SingletonCenter | 04_USER_INTERFACE/components/map/MarkerClusterGroup.tsx:48-50 | A one-marker cluster sits on that marker. |
| MarkerCluster.ClustersOf | 04_USER_INTERFACE/components/map/MarkerClusterGroup.tsx:50 | One cluster per index group, in order. |
| MarkerCluster.Clusters | 04_USER_INTERFACE/components/map/MarkerClusterGroup.tsx:20-54 | One non-empty cluster per group. |
| MarkerCluster.GrowGroup | 04_USER_INTERFACE/components/map/MarkerClusterGroup.tsx:31-46 | The inner loop builds the seed's cluster and marks its members assigned. |
| MarkerCluster.ClusterMarkers | 04_USER_INTERFACE/components/map/MarkerClusterGroup.tsx:20-54 | `clusterMarkers`' nested loops compute `Clusters`. |
| MarkerCluster.IconSize | 04_USER_INTERFACE/components/map/MarkerClusterGroup.tsx:57 | 30 pixels below 10 markers, 36 below 100, else 40. |
| MarkerCluster.IconTone | 04_USER_INTERFACE/components/map/MarkerClusterGroup.tsx:58 | Primary below 5 markers, warning below 15, destructive from 15. |
| MarkerCluster.FontSize | 04_USER_INTERFACE/components/map/MarkerClusterGroup.tsx:71 | 11 in the smallest icon, 13 otherwise. |
| MarkerCluster.IconSizeMonotone | 04_USER_INTERFACE/components/map/MarkerClusterGroup.tsx:57 | Larger clusters never get a smaller icon. |
| MarkerCluster.Draw | 04_USER_INTERFACE/components/map/MarkerClusterGroup.tsx:95-114 | A one-marker cluster is drawn as that marker, with a popup only for non-empty content; a larger one as a count icon at its centre. |
| MarkerCluster.GroupIconCount | 04_USER_INTERFACE/components/map/MarkerClusterGroup.tsx:96-107 | A cluster icon always counts at least two markers. |
| SessionRecorder.InsertFor | 02_DIGITAL_TWIN/sessions/session-recorder.ts:40-49 | The session row: machine, user, start counter and mode, with an empty area and a zero or missing S-mode stored as `null`. |
| SessionRecorder.Coordinates | 02_DIGITAL_TWIN/sessions/session-recorder.ts:103 | One pair per fix, in order, longitude first. |
| SessionRecorder.TrajectoryOf | 02_DIGITAL_TWIN/sessions/session-recorder.ts:99-110 | A line only from two fixes on, with the coordinates, the point count and both times. |
| SessionRecorder.TrajectoryPositions | 02_DIGITAL_TWIN/sessions/session-recorder.ts:103 | Each fix's position can be read back from the line, with the order of the pair swapped back. |
| SessionRecorder.DistanceFoldIsPathLength | 02_DIGITAL_TWIN/sessions/session-recorder.ts:115-118 | The `reduce` over the fixes is the length of the path through them. |
| SessionRecorder.AverageSpeed | 02_DIGITAL_TWIN/sessions/session-recorder.ts:113-121 | A speed only from two fixes with time elapsed between them, and then speed times hours is the path length. |
| SessionRecorder.AverageSpeedNonNegative | 02_DIGITAL_TWIN/sessions/session-recorder.ts:113-121 | With non-negative distances the speed is never negative. |
| SessionRecorder.MowingSession.constructor | 02_DIGITAL_TWIN/sessions/session-recorder.ts:23-29 | Nothing is recorded at first. |
| SessionRecorder.MowingSession.Start | 02_DIGITAL_TWIN/sessions/session-recorder.ts:33-87 | Without a user nothing is written; otherwise the session row is inserted, and only when that succeeds does recording start with no fixes. |
| SessionRecorder.MowingSession.OnFix | 02_DIGITAL_TWIN/sessions/session-recorder.ts:63-71 | Each fix is appended in arrival order and nothing else changes. |
| SessionRecorder.MowingSession.Stop | 02_DIGITAL_TWIN/sessions/session-recorder.ts:89-149 | Without a session nothing happens; otherwise the watch is cleared, the session is updated with the end counter, the area, the average speed and the trajectory, and the recorder is reset. |
| Export.Cut | 05_INFRASTRUCTURE/export/export-service.ts:87 | Up to 50 characters are kept as they are; a longer description is cut to 50 and gets "...". |
| Export.CutKeepsPrefix | 05_INFRASTRUCTURE/export/export-service.ts:87 | A cut description starts with the description's first 50 characters. |
| Export.CutIdempotent | 05_INFRASTRUCTURE/export/export-service.ts:87 | Cutting twice is cutting once. |
| Export.PdfRow | 05_INFRASTRUCTURE/export/export-service.ts:82-89 | The five cells of a PDF row: date, counter with one decimal, type, cut description, technician. |
| Export.RowsOnPage | 05_INFRASTRUCTURE/export/export-service.ts:68-97 | Every row lies between the top margin (20) and the bottom limit (270). |
| Export.FirstPage | 05_INFRASTRUCTURE/export/export-service.ts:70-79 | Only the first 26 rows fit on the first page. |
| Export.NextRow | 05_INFRASTRUCTURE/export/export-service.ts:75-97 | The next row is 8 lower on the same page, or at the top of the next page. |
| Export.PlaceRows | 05_INFRASTRUCTURE/export/export-service.ts:75-99 | The loop places each row as `RowPlacement` states and ends with the page count. |
| Export.Footer | 05_INFRASTRUCTURE/export/export-service.ts:104-105 | The footer ends with the page count. |
| Export.Footers | 05_INFRASTRUCTURE/export/export-service.ts:99-110 | Every page gets a footer, numbered 1 to the page count. |
| Export.NumOrBlank | 05_INFRASTRUCTURE/export/export-service.ts:143 | A falsy number, zero or missing, gives an empty cell; any other number is kept. |
| Export.TextOrBlank | 05_INFRASTRUCTURE/export/export-service.ts:141-142 | A missing or empty text gives an empty cell. |
| Export.ServiceRow | 05_INFRASTRUCTURE/export/export-service.ts:134-145 | The eight cells of a service row, with firm, area and cost blank when missing. |
| Export.ServiceSheet | 05_INFRASTRUCTURE/export/export-service.ts:124-145 | Three header lines, an empty row, the titles, then one row per record, in order. |
| Export.AreaRow | 05_INFRASTRUCTURE/export/export-service.ts:204-215 | The eight cells of an area row; each optional value, zero included, is blank when falsy. |
| Export.AreaSheet | 05_INFRASTRUCTURE/export/export-service.ts:202-215 | The titles, then one row per area, in order. |
| Export.PointLines | 05_INFRASTRUCTURE/export/export-service.ts:173-176 | The four lines of a point: the `trkpt` element, the elevation and the time only when truthy, the closing tag. |
| Export.AllPointLines | 05_INFRASTRUCTURE/export/export-service.ts:173-176 | Four lines per point. |
| Export.AllPointLinesAt | 05_INFRASTRUCTURE/export/export-service.ts:173-176 | Point i's lines are lines 4i to 4i + 3. |
| Export.AllPointLinesOneLine | 05_INFRASTRUCTURE/export/export-service.ts:173-176 | No point line holds a line break when the numbers and times hold none. |
| Export.PointBlock | 05_INFRASTRUCTURE/export/export-service.ts:173-176 | No points give one empty line; otherwise the points' lines. |
| Export.GpxLines | 05_INFRASTRUCTURE/export/export-service.ts:163-179 | The document has 13 fixed lines around the points; the name appears in the metadata and in the track. |
| Export.GpxMiddle | 05_INFRASTRUCTURE/export/export-service.ts:164-172 | Seven lines between the XML head and the points. |
| Export.TrackPointLine | 05_INFRASTRUCTURE/export/export-service.ts:163-179 | Point i's element is line 10 + 4i: one element per point, in order. |
| Export.NameVerbatim | 05_INFRASTRUCTURE/export/export-service.ts:166 | The route name is written verbatim and can be read back from its line. |
| Export.PointBlockSplitsIntoLines | 05_INFRASTRUCTURE/export/export-service.ts:173-176 | Splitting the joined point block at line breaks gives back its lines. |
| Export.NoNewlineIn | 05_INFRASTRUCTURE/export/export-service.ts:173-176 | A point's lines hold no line break. |
| Export.DashRuns | 05_INFRASTRUCTURE/export/export-service.ts:182 | `replace(/\s+/g, '-')` leaves no white space. |
| Export.DashRunsKeeps | 05_INFRASTRUCTURE/export/export-service.ts:182 | A name without white space is kept. |
| Export.DashRunsIdempotent | 05_INFRASTRUCTURE/export/export-service.ts:182 | Replacing twice is replacing once. |
| Export.DashRunsKeepsPlain | 05_INFRASTRUCTURE/export/export-service.ts:182 | The other characters survive, in order. |
| Export.DashRunsConcat | 05_INFRASTRUCTURE/export/export-service.ts:182 | The replacement works left to right: a concatenation is replaced part by part, the second part continuing the run the first ends in. |
| Export.DashRunsOneDashPerRun | 05_INFRASTRUCTURE/export/export-service.ts:182 | A maximal run of white space between two parts becomes exactly one dash; with `DashRunsKeeps` this fixes the result for every name. |
| Export.DatePart | 05_INFRASTRUCTURE/export/export-service.ts:112 | The date part holds no 'T' and is the text up to the first 'T'. |
| Export.DatePartIsSplit | 05_INFRASTRUCTURE/export/export-service.ts:182 | It is what `split('T')[0]` gives. |
| Export.GpxFileName | 05_INFRASTRUCTURE/export/export-service.ts:182 | The GPX file name: the dashed name, a dash, the date, `.gpx`. |
| Export.ServiceBookFileName | 05_INFRASTRUCTURE/export/export-service.ts:112 | The service book's file names start with `servisni-kniha-` and the serial number and end in the extension. |
| RealtimeClient.MapRtkStatus | 02_DIGITAL_TWIN/telemetry/realtime-client.ts:25-32 | FIX, FLOAT and NONE are recognised in any case; a missing, empty or other status is unknown. |
| RealtimeClient.MapMode | 02_DIGITAL_TWIN/telemetry/realtime-client.ts:34-41 | autonomous, semi-auto and manual are recognised in any case; anything else is idle. |
| RealtimeClient.RtkNameRoundTrip | 02_DIGITAL_TWIN/telemetry/realtime-client.ts:25-32 | A status's own name maps back to it. |
| RealtimeClient.ModeNameRoundTrip | 02_DIGITAL_TWIN/telemetry/realtime-client.ts:34-41 | A mode's own name maps back to it. |
| RealtimeClient.RtkCaseInsensitive | 02_DIGITAL_TWIN/telemetry/realtime-client.ts:25-32 | The case of the raw status does not matter. |
| RealtimeClient.ModeCaseInsensitive | 02_DIGITAL_TWIN/telemetry/realtime-client.ts:34-41 | The case of the raw mode does not matter. |
| RealtimeClient.RowToTelemetry | 02_DIGITAL_TWIN/telemetry/realtime-client.ts:43-59 | A position only when both coordinates are truthy; speed and counter default to 0; battery, S-mode and HDOP are kept when present, zero included. |
| RealtimeClient.MissingValuesDefault | 02_DIGITAL_TWIN/telemetry/realtime-client.ts:49-55 | A row without speed and counter and with latitude 0 gives speed 0, counter 0 and no position. |
| RealtimeClient.Next | 02_DIGITAL_TWIN/telemetry/realtime-client.ts:82-193 | The connection state machine: a disconnect always ends disconnected, and the watchdog only turns a connected client stale. |
| RealtimeClient.DataRestores | 02_DIGITAL_TWIN/telemetry/realtime-client.ts:178-193 | Data brings a stale client back to connected and leaves every other state alone. |
| RealtimeClient.ConnectIdempotent | 02_DIGITAL_TWIN/telemetry/realtime-client.ts:82-84 | Connecting twice is connecting once, and a connect leaves the client connecting or connected. |
| RealtimeClient.Deliveries | 02_DIGITAL_TWIN/telemetry/realtime-client.ts:173-176 | Each listener, in order, is told the value. |
| RealtimeClient.Without | 02_DIGITAL_TWIN/telemetry/realtime-client.ts:146-158 | Unsubscribing removes that listener and keeps every other. |
| RealtimeClient.SubscribeUnsubscribe | 02_DIGITAL_TWIN/telemetry/realtime-client.ts:146-151 | Unsubscribing right after subscribing gives the listener list back. |
| RealtimeClient.Deliver | 02_DIGITAL_TWIN/telemetry/realtime-client.ts:175 | The `forEach` over the listeners computes `Deliveries`. |
| RealtimeClient.Client.constructor | 02_DIGITAL_TWIN/telemetry/realtime-client.ts:61-67 | Disconnected, without listeners, channels, telemetry or watchdog. |
| RealtimeClient.Client.SetState | 02_DIGITAL_TWIN/telemetry/realtime-client.ts:173-176 | The new state, told to every connection listener. |
| RealtimeClient.Client.Publish | 02_DIGITAL_TWIN/telemetry/realtime-client.ts:96-100 | New telemetry is kept as the latest and told to every telemetry listener. |
| RealtimeClient.Client.Connect | 02_DIGITAL_TWIN/telemetry/realtime-client.ts:82-135 | A connecting or connected client does nothing; otherwise it reports connecting, publishes the initial row when there is one, and takes a channel, which becomes the held one without the previous one being removed (counted as one more open channel, see Left out); or it reports an error when that throws. |
| RealtimeClient.Client.OnStatus | 02_DIGITAL_TWIN/telemetry/realtime-client.ts:122-130 | Subscribed, channel error and closed move the state as `Next` says; any other status changes nothing. |
| RealtimeClient.Client.ResetWatchdog | 02_DIGITAL_TWIN/telemetry/realtime-client.ts:178-193 | The watchdog is armed exactly for a connected or stale client, and a stale one becomes connected. |
| RealtimeClient.Client.OnChange | 02_DIGITAL_TWIN/telemetry/realtime-client.ts:112-120 | A non-empty row is published and resets the watchdog; an empty one changes nothing. |
| RealtimeClient.Client.OnWatchdog | 02_DIGITAL_TWIN/telemetry/realtime-client.ts:186-191 | Only a connected client becomes stale. |
| RealtimeClient.Client.Disconnect | 02_DIGITAL_TWIN/telemetry/realtime-client.ts:137-144 | The watchdog cleared, only the held channel released, and the state disconnected, told to the listeners. |
| RealtimeClient.ReconnectAfterErrorLeaks | 02_DIGITAL_TWIN/telemetry/realtime-client.ts:83-141 | Assuming each connect yields a new channel: a reconnect after a channel error leaves two channels open, and a disconnect afterwards still leaves one. |
| RealtimeClient.Client.OnTelemetry | 02_DIGITAL_TWIN/telemetry/realtime-client.ts:146-147 | The listener is appended. |
| RealtimeClient.Client.OffTelemetry | 02_DIGITAL_TWIN/telemetry/realtime-client.ts:148-150 | That listener is removed, the others kept in order. |
| RealtimeClient.Client.OnConnectionChange | 02_DIGITAL_TWIN/telemetry/realtime-client.ts:153-154 | The listener is appended. |
| RealtimeClient.Client.OffConnectionChange | 02_DIGITAL_TWIN/telemetry/realtime-client.ts:155-157 | That listener is removed, the others kept in order. |
| Assistant.InitialHistory | 04_USER_INTERFACE/pages/AssistantPage.tsx:74-83 | The stored history when it parses to a non-empty array, else the greeting alone; never empty. |
| Assistant.StripCR | 04_USER_INTERFACE/pages/AssistantPage.tsx:155 | A trailing carriage return is dropped, nothing else. |
| Assistant.ClassifyMeaning | 04_USER_INTERFACE/pages/AssistantPage.tsx:155-159 | Comment, blank and non-data lines are skipped; `[DONE]` ends the buffer; any other data line carries its trimmed payload. |
| Assistant.DataLine | 04_USER_INTERFACE/pages/AssistantPage.tsx:155-158 | A data line gives its trimmed payload, with or without a carriage return. |
| Assistant.AddDelta | 04_USER_INTERFACE/pages/AssistantPage.tsx:162-165 | A non-empty delta is appended to the answer; anything else leaves it. |
| Assistant.DrainLine | 04_USER_INTERFACE/pages/AssistantPage.tsx:152-159 | Each complete line is taken off the front of the buffer and acted on. |
| Assistant.DrainLeavesPartialLine | 04_USER_INTERFACE/pages/AssistantPage.tsx:152-174 | Unless `[DONE]` stopped it, the inner loop leaves no complete line in the buffer. |
| Assistant.DrainKeepsSuffix | 04_USER_INTERFACE/pages/AssistantPage.tsx:152-154 | What is left is the end of the buffer. |
| Assistant.DrainExtends | 04_USER_INTERFACE/pages/AssistantPage.tsx:163-165 | The answer only grows: what was read stays its beginning. |
| Assistant.PartialLineKept | 04_USER_INTERFACE/pages/AssistantPage.tsx:152 | A buffer without a line break is kept whole for the next chunk. |
| Assistant.ChunksCompose | 04_USER_INTERFACE/pages/AssistantPage.tsx:146-175 | Reading in two chunks gives the same as reading them joined, when no `[DONE]` came first. |
| Assistant.DrainBuffer | 04_USER_INTERFACE/pages/AssistantPage.tsx:152-174 | The inner `while` computes `Drain`. |
| Assistant.FeedIsWholeStream | 04_USER_INTERFACE/pages/AssistantPage.tsx:145-175 | Without `[DONE]`, how the stream is cut into chunks does not change the answer. |
| Assistant.ReadStream | 04_USER_INTERFACE/pages/AssistantPage.tsx:145-175 | The outer read loop computes `Feed`. |
| Assistant.HttpErrorText | 04_USER_INTERFACE/pages/AssistantPage.tsx:133-137 | 429 is the rate limit, 402 the exhausted credits, any other status is named. |
| Assistant.HttpErrorsDistinct | 04_USER_INTERFACE/pages/AssistantPage.tsx:133-137 | The three kinds of failure give three different messages. |
| Assistant.Reply | 04_USER_INTERFACE/pages/AssistantPage.tsx:113-181 | A rejected `getSession`, a missing session, a rejected `fetch`, a failed status or a missing body each add one error message (a rejection's own message); a stream adds the answer, and an error message after it when reading fails. |
| Assistant.Respond | 04_USER_INTERFACE/pages/AssistantPage.tsx:113-181 | The request's handling computes `Reply`. |
| Assistant.Chat.constructor | 04_USER_INTERFACE/pages/AssistantPage.tsx:74-83 | The page opens with `InitialHistory`. |
| Assistant.Chat.Send | 04_USER_INTERFACE/pages/AssistantPage.tsx:102-186 | An empty question or a pending request changes nothing; otherwise the question and the reply are appended and the input is cleared; the request goes out exactly when `getSession` resolved with a session. |
| Assistant.Chat.ClearChat | 04_USER_INTERFACE/pages/AssistantPage.tsx:188-191 | The history is the greeting alone again. |
| ServiceWorker.Route | 05_INFRASTRUCTURE/offline/service-worker.js:60-88 | Only GET requests over http(s) are handled: API paths network first, then static assets cache first, everything else stale-while-revalidate. |
| ServiceWorker.ApiBeforeStatic | 05_INFRASTRUCTURE/offline/service-worker.js:74-84 | A script under the REST API is still served network first. |
| ServiceWorker.ShellIsCacheFirst | 05_INFRASTRUCTURE/offline/service-worker.js:80-84 | The root and index pages are served cache first. |
| ServiceWorker.AfterActivate | 05_INFRASTRUCTURE/offline/service-worker.js:41-54 | Activation keeps exactly the caches that are not obsolete. |
| ServiceWorker.ActivateKeeps | 05_INFRASTRUCTURE/offline/service-worker.js:44-49 | The current caches and every cache of another app survive. |
| ServiceWorker.ActivatePartition | 05_INFRASTRUCTURE/offline/service-worker.js:43-54 | Every cache is either deleted or kept. |
| ServiceWorker.Opened | 05_INFRASTRUCTURE/offline/service-worker.js:28 | Opening a cache creates it when missing and changes nothing else. |
| ServiceWorker.Worker.Match | 05_INFRASTRUCTURE/offline/service-worker.js:92 | A response is found exactly when some cache holds the URL, and it is a successful one. |
| ServiceWorker.Worker.constructor | 05_INFRASTRUCTURE/offline/service-worker.js:4-7 | No cached responses; the cache names as found. |
| ServiceWorker.AddAll | 05_INFRASTRUCTURE/offline/service-worker.js:29-31 | `cache.addAll` once every fetch succeeded: the responses are stored in the order of the asset list. |
| ServiceWorker.StoredShape | 05_INFRASTRUCTURE/offline/service-worker.js:29-31 | After `addAll` the cache holds its old entries and exactly the fetched URLs, each with its own response; every other entry is untouched. |
| ServiceWorker.Worker.Install | 05_INFRASTRUCTURE/offline/service-worker.js:25-35 | The shell is stored only when every asset is fetched successfully, and then exactly those. |
| ServiceWorker.Worker.Activate | 05_INFRASTRUCTURE/offline/service-worker.js:38-57 | Obsolete caches are deleted; cached responses are not touched. |
| ServiceWorker.Worker.ServeCacheFirst | 05_INFRASTRUCTURE/offline/service-worker.js:91-108 | A cached response wins; else the network's, stored when successful; else the offline answer. |
| ServiceWorker.Worker.ServeNetworkFirst | 05_INFRASTRUCTURE/offline/service-worker.js:111-139 | The network's response, stored when successful; offline, the cached one, else the AI offline answer or a plain 503. |
| ServiceWorker.Worker.ServeStaleWhileRevalidate | 05_INFRASTRUCTURE/offline/service-worker.js:142-154 | The cached response when there is one, else the network's; a successful network response is stored either way. |
| ServicePage.FilteredServices | 04_USER_INTERFACE/pages/ServicePage.tsx:65-75 | Nothing before loading; then exactly the records matching the search (description, technician or type, ignoring case) and the type selector, in order. |
| ServicePage.SearchIgnoresCase | 04_USER_INTERFACE/pages/ServicePage.tsx:68-71 | The search finds the same record whatever the query's case. |
| ServicePage.Costs | 04_USER_INTERFACE/pages/ServicePage.tsx:77 | Each record's cost, a missing or zero one counting 0. |
| ServicePage.TotalCostSnoc | 04_USER_INTERFACE/pages/ServicePage.tsx:77 | One more record adds exactly its cost. |
| ServicePage.TotalCostNonNegative | 04_USER_INTERFACE/pages/ServicePage.tsx:77 | Non-negative costs give a non-negative total. |
| ServicePage.Without | 04_USER_INTERFACE/pages/ServicePage.tsx:102 | Removing an id keeps every other, each once. |
| ServicePage.WithoutAbsent | 04_USER_INTERFACE/pages/ServicePage.tsx:102 | Removing an absent id changes nothing. |
| ServicePage.Toggle | 04_USER_INTERFACE/pages/ServicePage.tsx:99-105 | The id flips in or out of the selection; every other id stays; no repetitions arise. |
| ServicePage.ToggleTwice | 04_USER_INTERFACE/pages/ServicePage.tsx:99-105 | Toggling twice selects the same ids, and gives the very list back when the id was not selected. |
| ServicePage.Ids | 04_USER_INTERFACE/pages/ServicePage.tsx:111 | The records' ids, in order. |
| ServicePage.IdSet | 04_USER_INTERFACE/pages/ServicePage.tsx:111 | `new Set(ids)`: the same ids, each once. |
| ServicePage.IdSetOfDistinct | 04_USER_INTERFACE/pages/ServicePage.tsx:111 | Distinct ids are all kept. |
| ServicePage.SelectAll | 04_USER_INTERFACE/pages/ServicePage.tsx:107-113 | When as many ids are selected as records are shown the selection is cleared; otherwise exactly the shown records' ids. |
| ServicePage.SelectAllTwice | 04_USER_INTERFACE/pages/ServicePage.tsx:107-113 | With distinct ids, pressing twice from a partial selection clears it. |
| ServicePage.DeleteEach | 04_USER_INTERFACE/pages/ServicePage.tsx:123-154 | A write is attempted for each selected id of a loaded record, and audited exactly when it succeeded, with the entry built from the record found by that id; the success count is the number audited. |
| ServicePage.KnownIff | 04_USER_INTERFACE/pages/ServicePage.tsx:124-125 | An id is known exactly when a loaded record carries it. |
| ServicePage.FirstWithIdMeaning | 04_USER_INTERFACE/pages/ServicePage.tsx:124-125 | `find` returns the first record carrying the id, and nothing exactly when none does. |
| ServicePage.Page.constructor | 04_USER_INTERFACE/pages/ServicePage.tsx:42-45 | Nothing selected, no dialog, no reason. |
| ServicePage.Page.ToggleSelect | 04_USER_INTERFACE/pages/ServicePage.tsx:99-105 | The selection becomes `Toggle`. |
| ServicePage.Page.ToggleSelectAll | 04_USER_INTERFACE/pages/ServicePage.tsx:107-113 | The selection becomes `SelectAll`. |
| ServicePage.Page.BulkDelete | 04_USER_INTERFACE/pages/ServicePage.tsx:115-169 | Without a user, a trimmed reason or a selection nothing is sent; otherwise each known selected record is soft-deleted as `DeleteEach` states, each success is audited by `insert_audit_log` with kind `smazání`, the record as loaded and the trimmed reason as the note, and the selection, the dialog and the reason are reset. |
| ServicePage.AuditedWereWritten | 04_USER_INTERFACE/pages/ServicePage.tsx:123-154 | An id is audited exactly when it was written and the write succeeded. |
| ServicePage.SuccessesBounded | 04_USER_INTERFACE/pages/ServicePage.tsx:121-142 | The successes never outnumber the written ids, nor those the selected ones. |
| ManualPage.Narrow | 04_USER_INTERFACE/pages/ManualPage.tsx:187-190 | A chapter keeps exactly its sections whose title or text holds the query, ignoring case. |
| ManualPage.NarrowAll | 04_USER_INTERFACE/pages/ManualPage.tsx:185-191 | Each chapter narrowed, in order. |
| ManualPage.FilteredStructureMeaning | 04_USER_INTERFACE/pages/ManualPage.tsx:184-194 | A chapter is listed exactly when it kept a section or its title holds the query. |
| ManualPage.FilteredSectionsMatch | 04_USER_INTERFACE/pages/ManualPage.tsx:184-194 | Every listed section matches and belongs to its chapter. |
| ManualPage.NarrowEmptyQuery | 04_USER_INTERFACE/pages/ManualPage.tsx:187-190 | An empty query narrows no chapter. |
| ManualPage.EmptyQueryShowsAll | 04_USER_INTERFACE/pages/ManualPage.tsx:184-194 | An empty query shows the whole manual. |
| ManualPage.ToggleChapter | 04_USER_INTERFACE/pages/ManualPage.tsx:178-182 | The chapter flips between expanded and collapsed; no other changes. |
| ManualPage.ToggleChapterTwice | 04_USER_INTERFACE/pages/ManualPage.tsx:178-182 | Expanding and collapsing again gives the list back. |
| ManualPage.Digits | 04_USER_INTERFACE/pages/ManualPage.tsx:122 | The leading digits of a line. |
| ManualPage.ClassifyText | 04_USER_INTERFACE/pages/ManualPage.tsx:131-166 | After bullets and numbered items a line is a key and value, a warning, a header or a paragraph. |
| ManualPage.KeyValueCut | 04_USER_INTERFACE/pages/ManualPage.tsx:133-134 | The key is the text before the first colon and the value the rest rejoined. |
| ManualPage.KeyValueOfMeaning | 04_USER_INTERFACE/pages/ManualPage.tsx:132-135 | A key and value exactly when the first colon comes before position 30 and something non-blank follows it. |
| ManualPage.ClassifyLeading | 04_USER_INTERFACE/pages/ManualPage.tsx:106-129 | An empty line is a spacer, a bullet mark starts a bullet, leading digits and a dot a numbered item, each with its text. |
| ManualPage.ClassifyKeyValue | 04_USER_INTERFACE/pages/ManualPage.tsx:131-143 | Then a key and value, when the line has one. |
| ManualPage.ClassifyRest | 04_USER_INTERFACE/pages/ManualPage.tsx:145-167 | Otherwise a warning (starts with POZOR or holds the warning sign), then a header (all upper case, longer than 3, no colon), else a paragraph. |
| ManualPage.ColonWarningIsKeyValue | 04_USER_INTERFACE/pages/ManualPage.tsx:131-152 | A "POZOR: ..." line with an early colon is shown as a key and value, not as a warning. |
| ManualPage.RenderContent | 04_USER_INTERFACE/pages/ManualPage.tsx:101-105 | One rendered line per line of the text. |
| ManualPage.RenderJoinedLines | 04_USER_INTERFACE/pages/ManualPage.tsx:101-105 | A text made of lines shows exactly those lines, each classified. |
| ManualPage.FirstMatch | 04_USER_INTERFACE/pages/ManualPage.tsx:94-95 | The first match at or after a position, or -1. |
| ManualPage.FirstMatchIsFirst | 04_USER_INTERFACE/pages/ManualPage.tsx:94-95 | No match starts before the one found. |
| ManualPage.PiecesMatch | 04_USER_INTERFACE/pages/ManualPage.tsx:95 | The split gives the text before the first match, the match, then the pieces of the rest. |
| ManualPage.PiecesKeepText | 04_USER_INTERFACE/pages/ManualPage.tsx:95 | The pieces spell the text. |
| ManualPage.HighlightKeepsText | 04_USER_INTERFACE/pages/ManualPage.tsx:92-98 | Highlighting changes no character. |
| ManualPage.PiecesNoMatch | 04_USER_INTERFACE/pages/ManualPage.tsx:95 | Without a match the text is one unmarked piece. |
| ManualPage.PiecesParity | 04_USER_INTERFACE/pages/ManualPage.tsx:95-97 | The marked pieces are exactly the odd ones. |
| ManualPage.PiecesMarkedMatch | 04_USER_INTERFACE/pages/ManualPage.tsx:95-97 | A marked piece is the query, up to case. |
| ManualPage.HighlightMarksQuery | 04_USER_INTERFACE/pages/ManualPage.tsx:92-98 | Every highlighted piece is the query, ignoring case. |
| ManualPage.BeforeFirstMatch | 04_USER_INTERFACE/pages/ManualPage.tsx:95 | The text before the first match holds no match. |
| ManualPage.PiecesPlainNoMatch | 04_USER_INTERFACE/pages/ManualPage.tsx:96-97 | An unmarked piece holds no match, so only matches are highlighted. |
| ManualPage.FindAppend | 04_USER_INTERFACE/pages/ManualPage.tsx:196-198 | `find` over the chapters' sections in turn finds the first chapter's match first. |
| ManualPage.LookupAgrees | 04_USER_INTERFACE/pages/ManualPage.tsx:196-204 | The selected section is found exactly when its chapter is, and that chapter holds it. |
| MachineModel.MachineStore.constructor | 02_DIGITAL_TWIN/machine-model/machine-hooks.ts:7-9 | Before the first load: no machine, loading, no error. |
| Dashboard.DashboardEffects.constructor | 04_USER_INTERFACE/pages/DashboardPage.tsx:23-24 | Last MTH sync at 0 and the telemetry sync not started; nothing forwarded yet. |
| SettingsPage.MthDialog.constructor | 04_USER_INTERFACE/pages/SettingsPage.tsx:28-29 | The MTH dialog starts closed and not saving. |
| ServiceDetailPage.DetailPage.constructor | 04_USER_INTERFACE/pages/ServiceDetailPage.tsx:44-61 | Not editing, no edit data, neither saving nor deleting, no navigation. |
| RoutePlanner.Planner.constructor | 04_USER_INTERFACE/components/route/RoutePlanner.tsx:37-39 | The route as given, no distance or duration, not loading. |
| Routing.RouteCache.constructor | 06_SHARED/utils/routing.ts:10 | The module-level route cache starts empty. |

## Left out

- Rendering, styling, toasts, dialogs and navigation of the React pages: the model keeps the state the handlers change and the writes they issue.
- Timers, `Date.now()` and `new Date().toISOString()`: the current time is a parameter.
- The database client, the network and `fetch`: their outcomes are parameters; `sync-service.ts` and the edge functions are not part of this model.
- Concurrency between overlapping drains of the offline queue, and between `online` events and page handlers: each operation runs to completion.
- The great-circle (haversine) distance: route ordering and path length take the distance as an abstract function.
- `toFixed`, locale formatting and floating-point rounding of non-coordinate numbers: such numbers stay structured values, and dates are given as already formatted text.
- The PDF and spreadsheet libraries: only the row layout and pagination of the PDF export and the cell values are modelled.
- The chat history persistence effect and `renderMarkdown` of the assistant page.
- Case mapping covers ASCII, Latin-1 and Latin Extended-A, one character to one character; other scripts are left unchanged by `Strings.Lower` and `Strings.Upper`. Within that range JavaScript differs on: µ (U+00B5, upper-cased to U+039C), ı (U+0131, to I), ſ (U+017F, to S), ß (U+00DF, to "SS"), ŉ (U+0149, to two characters) and İ (U+0130, lower-cased to two characters); the model leaves these unchanged.
- Strings are sequences of code points, while JavaScript's `length`, `substring`, `slice` and `indexOf` count UTF-16 code units. Outside the Basic Multilingual Plane (emoji, for instance) the two differ: `Export.Cut` (the 50-character cut of export-service.ts:87) cuts after 50 code points where JavaScript cuts after 50 code units and can split a surrogate pair; `ManualPage.KeyValueOf` (the colon before position 30 at ManualPage.tsx:132) and the header length test at ManualPage.tsx:155 measure code points; the length limits of the new-service form (a description of 10 to 1000 characters, names of 2 to 100) count code points; and sorting by string compares code points, which matches JavaScript's UTF-16 order only within the Basic Multilingual Plane.
- NotificationCenter.NotificationState.Dismiss: a dismissed notice is stored as the pair of interval id and base MTH rather than the joined string `<id>_<base>`.
- Routing.RouteCache.FetchRouteSegments: when the same key occurs twice within one call, the cached value follows index order, not response arrival order.
- Routing.OptimizeRouteOrder: requires distinct ids among the areas with GPS positions, because the source loops forever otherwise.
- The manual's content constant is data and is left out; the search and lookup are modelled over any list of chapters.
- Polyline.Decode: does not model 32-bit wrap-around for values longer than six five-bit groups, nor the sign of `>>` for results of 2^31 and above.
- RoutePlanner.MoveUp and RoutePlanner.Planner.Up: require a valid index, since the page passes only rendered indices.
- The service worker's `push`, `sync` and `notificationclick` handlers.
- `emergencyStop`, `loadRoute` and `startAutonomous` of the realtime client only write to the console; they are not modelled.
- RealtimeClient.ReconnectAfterErrorLeaks, RealtimeClient.Client.Connect: the model assumes every `connect` creates a new channel, even though the topic name `telemetry-live` is reused. The realtime library's `channel` call is not part of this model, and its version is not given. If that call returns the channel already registered under the topic, the second `subscribe` may throw instead, and `connect` ends in the error state (realtime-client.ts:131-133) without a second channel. The model does not capture that outcome.
- RealtimeClient.Client.OnChange: models one channel's change handler. With several channels open (see `Client.openChannels` and `ReconnectAfterErrorLeaks`) the realtime service runs the handler once per channel, so each row is published that many times; the model counts the open channels but does not replay a change per channel.
- The `getBarbieriClient` singleton.
- The service worker's offline answer for the assistant's path is a fixed JSON body, kept as the constant `ServiceWorker.OfflineAssistant`; it only answers GET requests, so the chat's POST never receives it and fails as `Assistant.FetchFailed` instead.
- The debounced re-clustering when the map moves, and `fitBounds` on a cluster click.
- Whether geolocation is available to the session recorder is a parameter.
- GPS coordinates are integers in units of 1e-5 degree (five decimals, as the route cache key rounds them). A coordinate smaller than 5e-6 in magnitude becomes 0 and then no longer counts as a position; two coordinates that agree to five decimals are the same value everywhere, not only in the cache key; and the OSRM request and the Google Maps link print five decimals where JavaScript prints the number's full shortest form.
- ServiceDetailPage.RecordSnapshot: the `_puvodni_data` snapshot holds the record's columns the model carries (id, date, counter, type, description, person, company, cost, area, interval, author, joined area name); the other columns `select('*')` returns (`stroj_id`, timestamps, the soft-delete columns) are not part of `ServiceRecord`.
