# Smart Tourist Safety web portal: a verified model of its core

This project models the core logic of the tourist-safety web portal in Dafny and proves properties of it. Each source file is one module:

- **Tracking session** (`Tracking`, `tracking_provider.dfy`). This is the `TrackingProvider` state machine:
  - the enabled flag, the initializing flag and the sampling profile (`realtime`, `balanced` or `saver`, each with fixed watch options);
  - the last location and the last error;
  - the single geolocation watch it holds;
  - the settings it persists.

  The browser's geolocation service and `localStorage` are fields of the session: a map of live watches to their options, a counter for watch ids, and the stored values. Callbacks and effects are methods.
  The two settings handlers are user events on the settings page, so they run only after mount; their models require that initializing is over.
- **Location codec**:
  - `AppHeader.LocationString` writes `Lat: <x.toFixed(5)>, Lon: <y.toFixed(5)>` for a position given in units of 10^-5 degree.
  - `IncidentsMap.ParseLocation` is the regular expression `/Lat: ([-]?\d+\.\d+), Lon: ([-]?\d+\.\d+)/`, modelled as a leftmost, greedy matcher over suffixes. It yields exact decimals (`Fixed`).
  - The two form a proved round trip.
- **SOS header** (`AppHeader`). The dialog flag and the sending flag are proved to move together. Each branch of `handleSendSOS` / `sendSOSReport` is a method.
- **Incident lists** (`IncidentsMap`, `AdminPage`):
  - the map's `validIncidents` filter and marker selection;
  - the dashboard counters, status tabs, table rows and status-action enablement;
  - the details dialog with its digital-ID lookup and E-FIR request.
- **Record stores** (`Incidents`, `Contacts`, `DigitalIds`). Each MongoDB collection is an in-memory sequence of documents in insertion order, held by a store class:
  - `addIncident`, `updateIncidentStatus` and `deleteIncident`;
  - the newest-first listings;
  - `saveContacts` (replace a user's list);
  - `addDigitalId` (upsert by user) and its lookups.

  Object ids are 24-digit lower-case hex strings (`ObjectIds`).
- **Sidebar** (`AppSidebar`): the `isActive` rule over the menu entries.

Shared helpers are in `Prelude`:
- `Option`/`Result`;
- JavaScript's `x || d` (`OrDefault`) and default parameters (`ParamOrDefault`);
- decimal digit strings;
- generic `filter` (`Filter`) and map-then-drop-null (`KeepSome`).

## Model

| member | source | states |
|---|---|---|
| Tracking.OptionsOrdered | Frontend/web-portal/src/context/tracking-provider.tsx:14-18 | realtime/balanced/saver have maximum age 0/30000/300000 and timeout 5000/10000/20000; only saver turns high accuracy off |
| Tracking.ParseInterval | Frontend/web-portal/src/context/tracking-provider.tsx:56 | a stored text is accepted exactly when it is the name of one of the three intervals, and it maps to that interval |
| Tracking.IntervalNameRoundTrip | Frontend/web-portal/src/context/tracking-provider.tsx:56-57 | the name the handler stores is parsed back to the same interval |
| Tracking.InheritedKeyAccepted | Frontend/web-portal/src/context/tracking-provider.tsx:56 | the guard as written accepts "toString", which names no interval |
| Tracking.GuardsAgreeOffPrototype | Frontend/web-portal/src/context/tracking-provider.tsx:56 | apart from inherited object keys, the written guard and the intended one accept the same strings |
| Tracking.RestoredInterval | Frontend/web-portal/src/context/tracking-provider.tsx:55-58 | the stored interval is adopted when it names one; otherwise (absent, empty or unknown) the current interval stays |
| Tracking.PersistRoundTrip | Frontend/web-portal/src/context/tracking-provider.tsx:51-58 | what the two handlers store, a later load restores: the same enabled flag and the same interval |
| Tracking.ErrorMessage | Frontend/web-portal/src/context/tracking-provider.tsx:99 | the error text is never empty; a non-empty platform message is kept, an empty one gets the fixed fallback |
| Tracking.TrackingSession.constructor | Frontend/web-portal/src/context/tracking-provider.tsx:41-47 | initial state: enabled, balanced, initializing, no location, no error, no watch |
| Tracking.TrackingSession.StopWatching | Frontend/web-portal/src/context/tracking-provider.tsx:76-83 | clears the platform watch only if one is held; always leaves watch id, location and error empty; nothing else changes, so repeating it does nothing more |
| Tracking.TrackingSession.StartWatching | Frontend/web-portal/src/context/tracking-provider.tsx:85-120 | stops first, then holds exactly one live watch with the captured interval's options and no error; without geolocation: no watch and the "not supported" error |
| Tracking.TrackingSession.RerunEffect | Frontend/web-portal/src/context/tracking-provider.tsx:122-133 | after the cleanup and the effect, a watch exists exactly when enabled, not initializing and supported; the error is the "not supported" one exactly when enabled, not initializing and unsupported |
| Tracking.TrackingSession.Mount | Frontend/web-portal/src/context/tracking-provider.tsx:49-60 | initializing ends; the enabled flag is the stored one (default true); the interval is restored only from a valid stored name, else balanced; a watch exists exactly when enabled and supported |
| Tracking.TrackingSession.SetTrackingInterval | Frontend/web-portal/src/context/tracking-provider.tsx:62-69 | persists the interval and never changes the enabled flag; when enabled, watching restarts (with the new interval's options after the effect) and the location is cleared; when disabled, no watch and nothing else changes |
| Tracking.TrackingSession.HandleSetIsTrackingEnabled | Frontend/web-portal/src/context/tracking-provider.tsx:71-74 | persists the flag; a change stops or restarts watching; setting the same value changes nothing |
| Tracking.TrackingSession.OnPosition | Frontend/web-portal/src/context/tracking-provider.tsx:91-96 | the sample replaces the location and clears the error; the watch is kept |
| Tracking.TrackingSession.OnWatchErrorAsWritten | Frontend/web-portal/src/context/tracking-provider.tsx:98-108 | as written: afterwards no watch and no location, and the error is empty again |
| Tracking.TrackingSession.OnWatchError | Frontend/web-portal/src/context/tracking-provider.tsx:98-108 | as intended: no watch and no location, and the error message is kept |
| Tracking.TrackingSession.Unmount | Frontend/web-portal/src/context/tracking-provider.tsx:130-132 | the cleanup leaves no live watch |
| IncidentsMap.DigitsSpec | Frontend/web-portal/src/components/incidents-map.tsx:13 | `\d+` takes the whole leading run of digits: the input is that run plus a rest that does not start with a digit |
| IncidentsMap.NumberSound | Frontend/web-portal/src/components/incidents-map.tsx:13 | a capture `[-]?\d+\.\d+` is a well-formed numeral spelled at the start of the input, followed by no digit |
| IncidentsMap.NumberFinds | Frontend/web-portal/src/components/incidents-map.tsx:13 | a numeral at the start of the input is captured with its sign and whole part, and captured entirely when no digit follows |
| IncidentsMap.MatchPrefixSound | Frontend/web-portal/src/components/incidents-map.tsx:13 | a match at the start of the input spells `Lat: <num>, Lon: <num>` |
| IncidentsMap.MatchPrefixFinds | Frontend/web-portal/src/components/incidents-map.tsx:13 | a spelled `Lat: <num>, Lon: <num>` at the start of the input is matched with its latitude intact |
| IncidentsMap.ParseFromSpec | Frontend/web-portal/src/components/incidents-map.tsx:13 | the suffix scan finds a match exactly when one occurs, and returns the leftmost one; an occurrence has no digit right after it, so each capture takes its whole digit run |
| IncidentsMap.ParseLocationSpec | Frontend/web-portal/src/components/incidents-map.tsx:12-18 | a value is returned exactly when `Lat: <num>, Lon: <num>` occurs somewhere; it is the leftmost occurrence, with the first capture as latitude and the second as longitude, each capture taking its whole (greedy) digit run |
| IncidentsMap.WholeLongitudeRun | Frontend/web-portal/src/components/incidents-map.tsx:13-15 | `Lat: 1.2, Lon: 3.45` gives latitude 1.2 and longitude 3.45: the longitude keeps its whole fraction |
| IncidentsMap.NoTruncatedLongitude | Frontend/web-portal/src/components/incidents-map.tsx:13 | a longitude cut short (3.4 in `Lat: 1.2, Lon: 3.45`) is not an occurrence of the expression |
| IncidentsMap.NoPointNoLocation | Frontend/web-portal/src/components/incidents-map.tsx:13 | a string without a decimal point (such as `Lat: 40, Lon: -3`) gives null |
| IncidentsMap.FoundInContext | Frontend/web-portal/src/components/incidents-map.tsx:13 | the expression is unanchored: surrounding text does not hide a location |
| IncidentsMap.ParseMatchText | Frontend/web-portal/src/components/incidents-map.tsx:13-15 | a string that is exactly one match reads back as its two numbers |
| IncidentsMap.ValidIncidentsSpec | Frontend/web-portal/src/components/incidents-map.tsx:50-56 | keeps exactly the incidents whose location parses, each with its parsed coordinates; never longer than the input |
| IncidentsMap.ValidIncidentsAppend | Frontend/web-portal/src/components/incidents-map.tsx:50-56 | works element by element, so input order is kept |
| IncidentsMap.Toggle | Frontend/web-portal/src/components/incidents-map.tsx:92-94 | the result is empty exactly when the clicked marker was selected; otherwise the clicked marker is selected |
| IncidentsMap.ClickTwice | Frontend/web-portal/src/components/incidents-map.tsx:92-94 | from nothing selected, or the marker itself selected, two clicks on the same marker restore the selection |
| IncidentsMap.SelectedIncident | Frontend/web-portal/src/components/incidents-map.tsx:112 | finds the first valid incident with the selected id, or none exactly when nothing is selected or no valid incident has that id |
| IncidentsMap.MapSelection.MarkerClick | Frontend/web-portal/src/components/incidents-map.tsx:92-94 | the selection becomes the toggle of the old selection |
| IncidentsMap.MapSelection.DragStart | Frontend/web-portal/src/components/incidents-map.tsx:122 | dragging clears the selection |
| IncidentsMap.MapSelection.CloseInfoWindow | Frontend/web-portal/src/components/incidents-map.tsx:138 | closing the info window clears the selection |
| IncidentsMap.MapSelection.Focus | Frontend/web-portal/src/components/incidents-map.tsx:83-89 | once the map is loaded, a focused incident becomes the selected one; otherwise the selection is unchanged |
| AppHeader.FixedNumeralValue | Frontend/web-portal/src/components/layout/app-header.tsx:77 | `toFixed(5)` prints a well-formed numeral with exactly five decimals that stands for the coordinate exactly |
| AppHeader.LocationRoundTrip | Frontend/web-portal/src/components/layout/app-header.tsx:77 | parsing the written location string gives back both coordinates, latitude first, at five decimals |
| AppHeader.LocationStringInjective | Frontend/web-portal/src/components/layout/app-header.tsx:97 | different positions give different location strings |
| AppHeader.SosIncidentIsMapped | Frontend/web-portal/src/components/layout/app-header.tsx:77 | an incident carrying a header-written location is placed on the map at that position |
| AppHeader.SosReport | Frontend/web-portal/src/components/layout/app-header.tsx:43-49 | every report has type "SOS Emergency", severity "High", `isSos` true and the given location |
| AppHeader.FailureText | Frontend/web-portal/src/components/layout/app-header.tsx:57-64 | a failure toast appears exactly when the result is not a success; it shows the result's message, the thrown error's message, or "An unknown error occurred." |
| AppHeader.SosAlert.SetDialogOpen | Frontend/web-portal/src/components/layout/app-header.tsx:126 | only the dialog flag changes |
| AppHeader.SosAlert.SendReport | Frontend/web-portal/src/components/layout/app-header.tsx:41-49 | appends one SOS report for the given location and marks the call outstanding |
| AppHeader.SosAlert.HandleSendSOS | Frontend/web-portal/src/components/layout/app-header.tsx:72-111 | with a tracked location, reports it at once and requests no position; otherwise requests one; without geolocation, reports nothing and clears both flags |
| AppHeader.SosAlert.OnCurrentPosition | Frontend/web-portal/src/components/layout/app-header.tsx:95-99 | the fetched position is reported in the same format |
| AppHeader.SosAlert.OnCurrentPositionError | Frontend/web-portal/src/components/layout/app-header.tsx:100-109 | nothing is reported and both flags are cleared |
| AppHeader.SosAlert.OnReportSettled | Frontend/web-portal/src/components/layout/app-header.tsx:51-69 | whatever the outcome, sending ends and the dialog closes; navigation to `/incidents` happens exactly on success |
| AdminPage.ActiveCountSpec | Frontend/web-portal/src/app/admin/page.tsx:404 | the active list holds exactly the Reported and In Progress incidents |
| AdminPage.HighPriorityAtMostActive | Frontend/web-portal/src/app/admin/page.tsx:405 | the high-priority incidents are the active ones with severity "High", so their count never exceeds the active count |
| AdminPage.ActivePlusResolved | Frontend/web-portal/src/app/admin/page.tsx:404-406 | the active count plus the resolved count is the total |
| AdminPage.RecentlyResolvedSpec | Frontend/web-portal/src/app/admin/page.tsx:476 | the card shows the first min(2, resolved) incidents of the resolved list, all of them resolved |
| AdminPage.TabIncidentsSpec | Frontend/web-portal/src/app/admin/page.tsx:521-531 | each status tab holds exactly the incidents with that status; "all" holds every incident |
| AdminPage.TabsPartition | Frontend/web-portal/src/app/admin/page.tsx:525-531 | the Reported and In Progress tabs together hold the active count, and with the Resolved tab the total |
| AdminPage.TableRowsSpec | Frontend/web-portal/src/app/admin/page.tsx:227-230 | a tab's rows are exactly its incidents whose location parses, each with its coordinates |
| AdminPage.ActionsMoveForward | Frontend/web-portal/src/app/admin/page.tsx:273-274 | an action is enabled exactly when it moves status forward (Reported < In Progress < Resolved); "Mark as In Progress" only for Reported |
| AdminPage.StaleLookupAsWritten | Frontend/web-portal/src/app/admin/page.tsx:166-187 | as written, a lookup for incident A that settles after B was opened shows A's tourist ID in B's dialog |
| AdminPage.ShownIdKeepsMatch | Frontend/web-portal/src/app/admin/page.tsx:166-187 | under the intended rule the shown ID always belongs to the shown incident's user, and the current incident's lookup result is shown |
| AdminPage.IncidentDetails.ViewDetails | Frontend/web-portal/src/app/admin/page.tsx:166-176 | shows the incident with no ID and no E-FIR; starts a lookup exactly when the incident has a non-empty user id |
| AdminPage.IncidentDetails.OnLookupSettledAsWritten | Frontend/web-portal/src/app/admin/page.tsx:177-186 | as written: the lookup result (none on failure) replaces the shown ID, whatever incident is shown |
| AdminPage.IncidentDetails.OnLookupSettled | Frontend/web-portal/src/app/admin/page.tsx:177-186 | as intended: the result is shown only while its incident is still open, which keeps ID and incident matched |
| AdminPage.IncidentDetails.GenerateEfir | Frontend/web-portal/src/app/admin/page.tsx:189-197 | no request without both a selected incident and an ID; otherwise that pair is sent |
| AdminPage.IncidentDetails.OnEfirSettled | Frontend/web-portal/src/app/admin/page.tsx:197-202 | success stores the text, failure leaves it; generation ends |
| AdminPage.IncidentDetails.CloseDetails | Frontend/web-portal/src/app/admin/page.tsx:205-209 | clears incident, ID and E-FIR |
| Incidents.Serialize | Frontend/web-portal/src/lib/incidents.ts:42-50 | `id` and `_id` are both the printed object id, which parses back to the document's id |
| Incidents.SerializeInjective | Frontend/web-portal/src/lib/incidents.ts:42-50 | serialization loses nothing: distinct documents serialize differently |
| Incidents.NewestFirstIsSortedPermutation | Frontend/web-portal/src/lib/incidents.ts:54 | the listing order is newest first by `createdAt` and a permutation of the collection |
| Incidents.GetIncidents | Frontend/web-portal/src/lib/incidents.ts:52-56 | one entry per document, newest first by `createdAt`; each document's view appears exactly as often as the document does in the collection |
| Incidents.GetIncidentsForUser | Frontend/web-portal/src/lib/incidents.ts:58-62 | exactly the user's documents (default "1"), newest first |
| Incidents.SerializeAllCount | Frontend/web-portal/src/lib/incidents.ts:55 | serializing a list keeps how often each document occurs, since serialization is one-to-one |
| Incidents.UserListIsFilteredFullList | Frontend/web-portal/src/lib/incidents.ts:54-61 | the user's listing is the full listing filtered by user |
| Incidents.NewIncident | Frontend/web-portal/src/lib/incidents.ts:74-94 | a new document has status Reported, user id defaulting to "1" when missing or empty, `isSos` true only when given true, and the given fields |
| Incidents.IncidentStore.AddIncident | Frontend/web-portal/src/lib/incidents.ts:64-104 | appends the new document and returns it serialized; a duplicate id is an error that changes nothing |
| Incidents.IncidentStore.UpdateIncidentStatus | Frontend/web-portal/src/lib/incidents.ts:107-118 | a malformed id is an error; no match returns null and changes nothing; a match changes only that document's status and returns it |
| Incidents.IncidentStore.DeleteIncident | Frontend/web-portal/src/lib/incidents.ts:120-124 | success is true exactly when a document with that id existed, and then only that document is removed |
| ObjectIds.ParseObjectId | Frontend/web-portal/src/lib/incidents.ts:110 | `new ObjectId(id)` accepts exactly 24 hex digits |
| ObjectIds.IdStringRoundTrip | Frontend/web-portal/src/lib/incidents.ts:45-46 | the printed id parses back to the same id |
| ObjectIds.IdStringInjective | Frontend/web-portal/src/lib/incidents.ts:45-46 | different ids print differently |
| Contacts.SerializeContact | Frontend/web-portal/src/lib/contacts.ts:30-35 | the printed id parses back; the other fields are kept |
| Contacts.GetContacts | Frontend/web-portal/src/lib/contacts.ts:37-41 | exactly the name/phone pairs of the user's documents (default "1"): one entry per matching document, in collection order |
| Contacts.ContactsOfIsFilter | Frontend/web-portal/src/lib/contacts.ts:39-40 | the per-user projection is the `userId` filter of the collection, mapped entry by entry |
| Contacts.KeepableSpec | Frontend/web-portal/src/lib/contacts.ts:53 | keeps exactly the entries with a non-empty name and phone |
| Contacts.SavedReplacesOneUser | Frontend/web-portal/src/lib/contacts.ts:43-62 | afterwards the user's contacts are exactly the kept entries in order, and every other user's contacts are unchanged |
| Contacts.SavingNothingClears | Frontend/web-portal/src/lib/contacts.ts:50-54 | a list with no complete entry (or an empty one) leaves the user with no contacts |
| Contacts.SaveTwiceIsSaveOnce | Frontend/web-portal/src/lib/contacts.ts:50-60 | saving the same list twice equals saving it once |
| Contacts.ContactStore.SaveContacts | Frontend/web-portal/src/lib/contacts.ts:43-62 | the collection becomes the saved one: the user's contacts replaced, all others kept |
| DigitalIds.SerializeDigitalId | Frontend/web-portal/src/lib/digital-id.ts:39-47 | `id` and `_id` are the same printed object id, which parses back |
| DigitalIds.GetDigitalIdForUser | Frontend/web-portal/src/lib/digital-id.ts:55-59 | a result exactly when the user has a document, and it is the serialization of the user's first document in the collection, as `findOne` returns |
| DigitalIds.GetDigitalId | Frontend/web-portal/src/lib/digital-id.ts:49-53 | the same result as `getDigitalIdForUser`, with "1" when no user is given |
| DigitalIds.Owner | Frontend/web-portal/src/lib/digital-id.ts:72 | the owner is never empty; a given non-empty user id is kept, otherwise "1" |
| DigitalIds.Filled | Frontend/web-portal/src/lib/digital-id.ts:74-84 | status Active, `issuedAt` from `visitStartDate`, `validUntil` from `visitEndDate`, the other fields as given |
| DigitalIds.UpsertOverwrites | Frontend/web-portal/src/lib/digital-id.ts:86-93 | afterwards the user has exactly one ID with the new fields, on the old document's id if there was one; no user gets a second ID; other users' lookups are unchanged |
| DigitalIds.DigitalIdStore.AddDigitalId | Frontend/web-portal/src/lib/digital-id.ts:61-100 | returns the user's upserted ID with the given fields and status Active, keeping an existing id; the not-found error cannot arise |
| AppSidebar.RenderMenu | Frontend/web-portal/src/components/layout/app-sidebar.tsx:39-52 | each menu entry is rendered with its href, label and `isActive` flag |
| AppSidebar.RenderFooter | Frontend/web-portal/src/components/layout/app-sidebar.tsx:55-74 | each footer entry is rendered with its href and label and no active marker |
| AppSidebar.FooterNeverActive | Frontend/web-portal/src/components/layout/app-sidebar.tsx:55-72 | the Admin and Logout entries never carry an active marker |
| AppSidebar.ExactMatchActive | Frontend/web-portal/src/components/layout/app-sidebar.tsx:43 | an entry is active on its own path |
| AppSidebar.DashboardOnlyExact | Frontend/web-portal/src/components/layout/app-sidebar.tsx:43 | Dashboard is active exactly on `/dashboard` |
| AppSidebar.OthersByPrefix | Frontend/web-portal/src/components/layout/app-sidebar.tsx:43 | any other entry is active exactly on the paths starting with its href |
| AppSidebar.NewIncidentMarksIncidents | Frontend/web-portal/src/components/layout/app-sidebar.tsx:18-24 | `/incidents/new` marks Incidents and no other entry |
| AppSidebar.AtMostOneActive | Frontend/web-portal/src/components/layout/app-sidebar.tsx:18-24 | no menu href is a prefix of another, so at most one entry is active on any path |

## Left out

- The AI flows: `createIncidentReport`, `generateEfir` and the others. The SOS report is modelled up to the request it hands to the flow. The E-FIR text is an input.
- MongoDB plumbing and server behaviour beyond the calls used. Collections are sequences in insertion order. Ties in `createdAt` keep insertion order, where MongoDB leaves the order unspecified. Concurrent upserts are not modelled.
- Map rendering, heatmap, bounds fitting, zoom, panning and `handleMapClick`.
- Toasts are modelled only as the `AppHeader.Notice` kinds. Routing is modelled only as the list of pushed paths. JSX is not modelled.
- Floating point: platform coordinates are integers in units of 10^-5 degree, and parsed numbers are exact decimals (`Fixed`). Not modelled: `toFixed` rounding of finer positions, `parseFloat` rounding, negative zero, and the exponential form `toFixed` uses from 10^21 up.
- Dates: `new Date(text)` is an opaque `Moment` carrying its text. `createdAt` is an integer instant. `formatDistanceToNow` and `toISOString` are not modelled.
- `localStorage` holds the already-parsed enabled flag. `JSON.parse` of other stored text, which can throw or give a non-boolean, is not modelled.
- React scheduling. Effects are explicit re-runs after the events that change their dependencies, and callbacks are sequential events. A re-render with unchanged state triggers nothing.
- The SOS contact lookup and log line inside `addIncident` (incidents.ts:76-82) have no effect on the store.
- `ObjectId` values built from non-string inputs.
- The refetch after a status change or delete on the admin page (`onAction`). The store methods model the change itself.
- AdminPage.IncidentDetails.OnEfirSettled: the E-FIR result is stored even when the dialog has moved to another incident, as in the source. This is the same kind of race as the third finding, but the model does not correct it.
- Contacts.ContactStore.SaveContacts: the ids given to inserted documents are taken to be new. A duplicate-key failure of `insertMany` after `deleteMany` has run, which would leave the user with no contacts, is not modelled.
- Tracking.TrackingSession.Mount: the model requires the first-render state (enabled, balanced, initializing), which the constructor establishes.

## Findings

| source | as written | input that shows it | evidently intended | confidence | as-written member | corrected member |
|---|---|---|---|---|---|---|
| Frontend/web-portal/src/context/tracking-provider.tsx:56 | `savedInterval && INTERVAL_OPTIONS[savedInterval]` accepts any key the options object inherits | stored `trackingInterval` = `toString` (or `constructor`, `valueOf`, …) is adopted as the interval, and watching then runs with a function as options | accept only `realtime`, `balanced` or `saver` | not executed | Tracking.InheritedKeyAccepted | Tracking.ParseInterval |
| Frontend/web-portal/src/context/tracking-provider.tsx:101-107 | the error callback sets the error, then `stopWatching` sets it back to null | any geolocation error, e.g. permission denied: the dashboard alert (dashboard/page.tsx:153) never appears | stop watching and keep the error for display | not executed | Tracking.TrackingSession.OnWatchErrorAsWritten | Tracking.TrackingSession.OnWatchError |
| Frontend/web-portal/src/app/admin/page.tsx:177-179 | the digital-ID lookup result is stored with no check that its incident is still open | open incident A (user "u"); before the lookup returns, open incident B (no user); A's result then shows u's ID in B's dialog and enables E-FIR for B with it | drop a result whose incident is no longer shown | not executed | AdminPage.StaleLookupAsWritten | AdminPage.IncidentDetails.OnLookupSettled |
