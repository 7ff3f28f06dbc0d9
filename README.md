# Meeting minutes: data-access layer and editing UI state, in Dafny

This project models the part of the meeting-minutes app that has logic of its own:

- the Supabase data-access module (`src/lib/supabase.ts`), with its `ApiResponse` envelope, the lazily memoised client, and the meeting, attendee and meeting-attendee services;
- the meeting list page (`src/app/page.tsx`);
- the meeting drawer's edit form (`src/components/MeetingDrawer.tsx`).

The remote store lies outside this code. Each awaited round trip is therefore a parameter `Reply<T>` with three cases:

- `Answered(data)`: the store answered and `error` is null;
- `Rejected(error)`: the store answered with an error object;
- `Raised(exception)`: the call threw, and the `catch` block received the exception.

The model computes what the module computes locally around those answers. That covers:

- the envelope;
- the query parameters `getAll` passes;
- the flattening of `getById`;
- the insert payload of `duplicate`;
- the counters of `getStats`;
- the boolean of `healthCheck`.

For the keyed deletes, the store is a `map<Id, Row>` per table (`RemoteStore.Tables`), so their row-level effect is stated too.

Modules, one per source concern:

| module | file | models |
|---|---|---|
| `SupabaseTypes` | supabase_types.dfy | row, insert and status types; the shape of a store answer |
| `ApiEnvelope` | api_envelope.dfy | `ApiResponse`, `handleApiResponse`, the shared try/catch bodies |
| `SupabaseConnection` | supabase_connection.dfy | `validateEnvironment`, `getSupabaseClient`, the module-level `supabase` |
| `RemoteStore` | remote_store.dfy | the tables as maps; the links a composite key selects |
| `MeetingMinutesApi` | meeting_minutes_api.dfy | `meetingMinutesAPI` and `healthCheck` |
| `AttendeesApi` | attendees_api.dfy | `attendeesAPI` and `meetingAttendeesAPI` |
| `MeetingTypes` | meeting_types.dfy | the `Meeting` type the UI uses |
| `JsString` | js_string.dfy | JavaScript's `String.prototype.trim` |
| `HomePage` | home_page.dfy | the page's state as class `Home` |
| `MeetingDrawerForm` | meeting_drawer.dfy | the drawer's form state as class `MeetingDrawer` |
| `PageWiring` | page_wiring.dfy | the drawer's `onSave`/`onClose` wired to the page |

Several operations only pass the store's answer through `handleApiResponse` inside the common try/catch. They are all modelled by `ApiEnvelope.Respond`:

- `meetingMinutesAPI.create` and `update`;
- `attendeesAPI.getAll`, `getById`, `create`, `update` and `search`;
- `meetingAttendeesAPI.addToMeeting`, `updateAttendanceStatus` and `getByMeetingId`.

The deletes read only `error` and always return `data = null`. They share `ApiEnvelope.RespondNull`.

Facts about the code that shape the model:

- `handleApiResponse` does not rewrite store messages: it passes `error.message` through, else `'An unknown error occurred'`.
- A successful envelope passes `data` through unchanged, so it may be null.
- The page and the drawer call `api.meetings.getAll/create/update`. The exported `api` object has no `meetings` field (`src/lib/supabase.ts:524-528`), and the UI's `Meeting` type has `time`, not `meeting_date`. The model therefore treats this collaborator as an abstract service whose awaited call either returns an envelope over `Meeting` or throws (`ApiEnvelope.Awaited`). It does not identify it with `meetingMinutesAPI`. With the exported `api` as it stands, every such call throws a TypeError.

## Model

| member | source | states |
|---|---|---|
| `ApiEnvelope.ErrorText` | src/lib/supabase.ts:162 | the failure message is the error's own message when it has one, else 'An unknown error occurred'; never empty |
| `ApiEnvelope.HandleApiResponse` | src/lib/supabase.ts:157-172 | a truthy error gives data null, success false and the error text; no error gives success true, error null and data unchanged; the result is always well-formed (success exactly when error is null, a failure has no data and a non-empty message) |
| `ApiEnvelope.Respond` | src/lib/supabase.ts:252-264 | the shared try/catch body: success exactly when the store answered, the answer's data passed through, and a rejected or thrown call both give the error's text |
| `ApiEnvelope.RespondNull` | src/lib/supabase.ts:285-293 | the delete body: data is null on every path; success exactly when the store answered without error |
| `ApiEnvelope.RespondNullAgreesWithRespond` | src/lib/supabase.ts:290 | a null-data envelope has the same success flag and error as the data envelope of the same answer |
| `ApiEnvelope.MessageOr` | src/app/page.tsx:28 | the error when the response has a non-empty one, else the caller's fallback message |
| `SupabaseConnection.ValidateEnvironment` | src/lib/supabase.ts:114-127 | succeeds exactly when both variables are set and non-empty; a missing URL fails with the URL message before the key is looked at; a missing key fails with the key message; success returns the two values |
| `SupabaseConnection.SupabaseClient.constructor` | src/lib/supabase.ts:135 | the client built holds the URL and key it was given |
| `SupabaseConnection.ClientCache.constructor` | src/lib/supabase.ts:130 | the cached client starts as null |
| `SupabaseConnection.ClientCache.GetSupabaseClient` | src/lib/supabase.ts:132-144 | with a cached client: returns that same object and changes nothing, without validating; without one: a failed validation returns its error and caches nothing; a successful one builds a fresh client from the validated values, caches it and returns it |
| `SupabaseConnection.LoadModule` | src/lib/supabase.ts:146-147 | loading the module runs the first `getSupabaseClient()`; a missing variable fails the load with validation's message; otherwise the exported client is the cached one |
| `SupabaseConnection.LaterCallsReuseClient` | src/lib/supabase.ts:132-147 | after a successful load, a later call in any environment, even an empty one, returns the exported client |
| `RemoteStore.WithoutLinks` | src/lib/supabase.ts:473-476 | removes exactly the link rows whose meeting_id and attendee_id both match, and keeps every other row unchanged |
| `MeetingMinutesApi.PageSize` | src/lib/supabase.ts:204 | the page size is the limit when it is given and non-zero, else 10 |
| `MeetingMinutesApi.ListQueryFor` | src/lib/supabase.ts:186-205 | selects all columns of meeting_minutes, newest meeting_date first; status, search and limit are passed only when truthy; a range is passed exactly when offset is truthy, from offset, spanning the page size |
| `MeetingMinutesApi.FalsyFiltersIgnored` | src/lib/supabase.ts:195-205 | a limit of 0, an offset of 0 or an empty search string gives the same query as leaving it out |
| `MeetingMinutesApi.GetAll` | src/lib/supabase.ts:177-212 | the query built step by step is the query `ListQueryFor` describes, and the envelope is the store's answer through the try/catch body |
| `MeetingMinutesApi.FlattenLinks` | src/lib/supabase.ts:234-237 | one entry per link, in order, each the link's attendee fields with that link's attendance_status |
| `MeetingMinutesApi.FlattenLinksRoundTrip` | src/lib/supabase.ts:234-237 | the link rows as selected can be rebuilt from the flattened entries, so flattening loses nothing |
| `MeetingMinutesApi.FlattenLinksAppend` | src/lib/supabase.ts:234-237 | flattening distributes over concatenation, so the order of the links is kept |
| `MeetingMinutesApi.GetById` | src/lib/supabase.ts:215-249 | a failed fetch returns a failure with its error text and nothing is transformed; otherwise success with the meeting's row and the flattened links, an absent link list giving no attendees, and no meeting_attendees field in the result |
| `MeetingMinutesApi.InsertOf` | src/lib/supabase.ts:40-48 | the insert payload for a row keeps its status |
| `MeetingMinutesApi.InsertOfRoundTrip` | src/lib/supabase.ts:27-48 | stripping a row's id and timestamps and having the store put them back gives the same row |
| `MeetingMinutesApi.DuplicatePayload` | src/lib/supabase.ts:309-316 | the payload's title is the original title followed by " (Copy)"; its status is draft; it is the original's insert payload with only those two fields changed; id and both timestamps are absent |
| `MeetingMinutesApi.DuplicateIsRenamedDraft` | src/lib/supabase.ts:309-316 | once stored, the copy equals the original except for its new id and timestamps, the suffixed title and the draft status, whatever the original status was |
| `MeetingMinutesApi.Duplicate` | src/lib/supabase.ts:297-328 | a failed fetch issues no insert and returns a failure with the fetch error's text; otherwise exactly one insert of the duplicate payload is issued, and its answer becomes the envelope |
| `MeetingMinutesApi.CountStatus` | src/lib/supabase.ts:348-350 | `filter(status === s).length` equals the number of occurrences of s, its multiset multiplicity |
| `MeetingMinutesApi.CountUnrecognised` | src/lib/supabase.ts:346-351 | the rows whose status is none of the three named ones are at most the number of rows |
| `MeetingMinutesApi.StatusCountsPartition` | src/lib/supabase.ts:346-351 | draft + published + archived + unrecognised == total: every row is counted exactly once |
| `MeetingMinutesApi.NoneUnrecognised` | src/lib/supabase.ts:346-351 | no row is unrecognised exactly when every row's status is draft, published or archived |
| `MeetingMinutesApi.Stats` | src/lib/supabase.ts:346-351 | total is the number of rows; each named counter counts rows with exactly that status; the named counters sum to at most total |
| `MeetingMinutesApi.StatsExactIffAllRecognised` | src/lib/supabase.ts:346-351 | the named counters sum to total exactly when every status is one of the three (both directions) |
| `MeetingMinutesApi.GetStats` | src/lib/supabase.ts:331-357 | a fetch error is returned as a failure before any counting; otherwise success with the counters of the status column |
| `MeetingMinutesApi.DeleteMeeting` | src/lib/supabase.ts:283-294 | the envelope is the delete body's: data always null, success exactly when the store answered, and otherwise the store error's text; on success the row with that id is gone and the store is assumed to change nothing else; on failure the tables are unchanged |
| `MeetingMinutesApi.DeleteMeetingIdempotent` | src/lib/supabase.ts:283-294 | when the store answers both deletes without error, deleting an id a second time gives the same tables and envelope as deleting it once |
| `MeetingMinutesApi.HealthCheck` | src/lib/supabase.ts:531-543 | true exactly when the store answered without error; false on a store error or a thrown exception; equal to the success flag of the same answer's envelope |
| `AttendeesApi.LinkInsert` | src/lib/supabase.ts:455-459 | the inserted link carries both ids and always an attendance status: the given one, or invited by default |
| `AttendeesApi.DeleteAttendee` | src/lib/supabase.ts:423-434 | the envelope is the delete body's: data always null, success exactly when the store answered, and otherwise the store error's text; on success that attendee row is gone and the store is assumed to change nothing else |
| `AttendeesApi.RemoveFromMeeting` | src/lib/supabase.ts:470-482 | the envelope is the delete body's: data always null, success exactly when the store answered, and otherwise the store error's text; on success the links matching the meeting and attendee pair are gone and the other tables are untouched; on failure nothing changes |
| `AttendeesApi.RemoveFromMeetingIsExact` | src/lib/supabase.ts:473-476 | after a removal no link pairs the two, and every link of another pair is kept with its contents |
| `AttendeesApi.RemoveFromMeetingIdempotent` | src/lib/supabase.ts:470-482 | removing the same pair again leaves the tables as they were after the first removal |
| `JsString.TrimStartSpec` | src/components/MeetingDrawer.tsx:55 | TrimStart leaves the suffix after the leading white space, and that suffix does not start with white space |
| `JsString.TrimEndSpec` | src/components/MeetingDrawer.tsx:55 | TrimEnd leaves the prefix before the trailing white space, and that prefix does not end with white space |
| `JsString.TrimSpec` | src/components/MeetingDrawer.tsx:67-69 | the trimmed text has no white space at either end and is a contiguous piece of the input |
| `JsString.TrimIsMiddle` | src/components/MeetingDrawer.tsx:67-69 | for any split of the text into white space, a trimmed middle and white space, trim returns the middle (an independent characterisation) |
| `JsString.TrimIdempotent` | src/components/MeetingDrawer.tsx:67-69 | trimming a trimmed text changes nothing |
| `JsString.BlankIffAllWhiteSpace` | src/components/MeetingDrawer.tsx:55 | `!title.trim()` holds exactly when every character is white space |
| `HomePage.ReplaceById` | src/app/page.tsx:46 | same length; each element whose id matches the saved meeting becomes it, and every other element is unchanged |
| `HomePage.ReplaceByIdKeepsIds` | src/app/page.tsx:46 | every position keeps its id |
| `HomePage.ReplaceByIdIdempotent` | src/app/page.tsx:46 | saving the same meeting twice gives the list of saving it once |
| `HomePage.ReplaceByIdWithoutMatch` | src/app/page.tsx:46 | a saved meeting whose id is not in the list leaves the list unchanged |
| `HomePage.Home.constructor` | src/app/page.tsx:11-15 | initial state: no meetings, loading, nothing selected, drawer closed, no error |
| `HomePage.Home.StartLoading` | src/app/page.tsx:22-23 | loading is set and the error cleared before the request; nothing else changes |
| `HomePage.Home.FinishLoading` | src/app/page.tsx:25-30 | a successful envelope with data replaces the meetings; otherwise the error becomes the response error or 'Failed to load meetings' and the list is kept; loading ends false |
| `HomePage.Home.LoadMeetings` | src/app/page.tsx:21-31 | on a returned envelope with success and data the meetings are replaced and there is no error; on any other returned envelope the error is set as above and the list kept; loading then ends false; a thrown call is not caught, so loading stays true, the error stays null and the list is kept; selection and drawer untouched |
| `HomePage.Home.LoadMeetingsSettled` | src/app/page.tsx:21-31 | the same load with the throw caught and `setLoading(false)` in a `finally`: loading always ends false, and the error is null exactly when the call delivered data; a throw shows 'Failed to load meetings' |
| `HomePage.FirstLoadThrows` | src/app/page.tsx:17-31 | the mount's first load with a throwing `getAll()` leaves the page loading, with no meetings and no error to show |
| `HomePage.FirstLoadThrowsSettled` | src/app/page.tsx:17-31 | the same first load with the throw caught ends not loading and shows 'Failed to load meetings' |
| `HomePage.Home.HandleRowClick` | src/app/page.tsx:33-36 | the clicked meeting is selected and the drawer is open; the list, loading and error are untouched |
| `HomePage.Home.HandleAddMeeting` | src/app/page.tsx:38-41 | the selection is cleared and the drawer is open |
| `HomePage.Home.HandleMeetingSaved` | src/app/page.tsx:43-51 | with a selection, the list is the old list with matching ids replaced; without one, the saved meeting is at index 0, followed by the old list, one longer |
| `HomePage.Home.HandleDrawerClose` | src/app/page.tsx:53-56 | the drawer is closed and the selection cleared; the invariant "a closed drawer has no selection" is kept by every handler |
| `MeetingDrawerForm.FormData` | src/components/MeetingDrawer.tsx:66-70 | the payload holds the trimmed title and trimmed content and the form's time; both texts are trimmed and no longer than the inputs |
| `MeetingDrawerForm.CheckedTitleIsNonEmpty` | src/components/MeetingDrawer.tsx:55-58 | a title that passes the check has a non-white-space character, and its trimmed payload title is non-empty |
| `MeetingDrawerForm.MeetingDrawer.constructor` | src/components/MeetingDrawer.tsx:30-52 | on mount, an existing meeting's title and content are copied and its time parsed, in view mode, or a new meeting starts with empty fields at the current time in edit mode; no error, not loading |
| `MeetingDrawerForm.MeetingDrawer.InitializeForm` | src/components/MeetingDrawer.tsx:38-52 | the effect: non-null meeting gives its title and content, its parsed time and isEditing false; null gives empty fields, the current time and isEditing true; error cleared in both |
| `MeetingDrawerForm.MeetingDrawer.ReceiveMeeting` | src/components/MeetingDrawer.tsx:37-52 | a changed meeting prop runs the effect; an unchanged one leaves the form alone |
| `MeetingDrawerForm.MeetingDrawer.HandleSave` | src/components/MeetingDrawer.tsx:54-103 | a blank title sets 'Title is required' and returns with no call; an invalid date makes `toISOString()` throw before any call, giving 'An unexpected error occurred'; otherwise exactly one update (existing meeting) or create call with the trimmed title and content and the ISO time; form fields are never changed; loading always ends false |
| `MeetingDrawerForm.MeetingDrawer.Settle` | src/components/MeetingDrawer.tsx:74-102 | success with data calls onSave with it, then leaves edit mode (update) or calls onClose (create); a failed envelope sets its error or the operation's fallback message; a throw sets 'An unexpected error occurred'; loading ends false |
| `MeetingDrawerForm.MeetingDrawer.HandleCancel` | src/components/MeetingDrawer.tsx:105-117 | for an existing meeting, title and content are restored from it, its time parsed again, and edit mode ends; for a new one onClose is called and the form is kept; error cleared in both |
| `MeetingDrawerForm.MeetingDrawer.HandleEdit` | src/components/MeetingDrawer.tsx:119-122 | edit mode on and error cleared; meeting, title, time and content untouched |
| `PageWiring.SaveFromDrawer` | src/app/page.tsx:148-153 | a call is made exactly when the title is not blank and the date valid; a successful update replaces the meeting in the page's list, keeps the selection and the open drawer, and leaves edit mode without error; a successful create puts it first, closes the drawer and clears the selection, without error; otherwise the list, the selection, the open drawer and edit mode are kept, with an error shown in the drawer; the drawer's meeting, title, time and content never change, nor the page's loading and error |

## Left out

- Query-builder semantics (`.eq`, `.or(... ilike ...)`, `.order`, `.limit`, `.range`, `.single`) run inside supabase-js and the store. The model records which parameters `getAll` passes, and treats every list, search or join answer as a parameter.
- The text of the `.or(...)` search filter (`title.ilike.%term%,...` and `name.ilike.%term%,...`) is not built. The query records the search term only.
- The store's own row effects of create and update are not modelled, and neither are server-assigned ids and timestamps. `Persisted` states only what `duplicate` needs. Server-side properties such as "update ≥ creation" are therefore not stated.
- `MeetingMinutesApi.DeleteMeeting`, `AttendeesApi.DeleteAttendee`, `AttendeesApi.RemoveFromMeeting`: a thrown call is taken to leave the tables unchanged. The model does not cover a network failure after the store has applied the delete.
- A `.single()` fetch that returns neither data nor an error is not modelled. In the code, such a reply would make `getById` or `duplicate` throw a TypeError into their `catch`.
- The auth options passed to `createClient`, the `console.error` logging, and the `isDevelopment` and `useMockData` flags have no logic to model.
- JavaScript numbers are modelled as integers. A NaN or fractional `limit` or `offset` is not modelled.
- Date parsing is a parameter: the drawer's `parseDate` stands for `new Date(text)` followed by `toISOString()`, with `None` for an Invalid Date. The ISO format and JavaScript's parsing rules are not modelled. `new Date()` reads the clock and is the `now` parameter.
- `formatDate` in the page's table uses `toLocaleDateString`, which depends on the locale. It only renders and is not modelled.
- `MeetingMinutesApi.DeleteMeeting`, `AttendeesApi.DeleteAttendee`, `AttendeesApi.RemoveFromMeeting`: the row effect is an assumption about the store, since the code only issues the request. The model assumes no cascading or restricting foreign key, so an answered delete removes only the matched rows (a meeting's links survive its deletion), and that a delete matching no row answers without error.
- `MeetingDrawerForm.MeetingDrawer.HandleSave`: it does not expose the intermediate state in which `loading` is true and `error` is null while the call is awaited. Every await is a sequential step here.
- `MeetingDrawerForm.MeetingDrawer.ReceiveMeeting`: React compares the old and new prop by object identity. The model compares meetings by value.
- All JSX rendering and the component libraries are not modelled. This includes the 'Database table not found' hint, which no code in the module produces.
- Concurrent and interleaved calls are not modelled.

## Findings

| source | as written | input that shows it | evidently intended | confidence | as-written member | corrected member |
|---|---|---|---|---|---|---|
| src/app/page.tsx:21-31 | `loadMeetings` awaits `api.meetings.getAll()` with no try/catch, after `setLoading(true)` and `setError(null)` | a `getAll()` that throws or rejects; with the exported `api`, which has no `meetings` field, every call does | loading ends and the failure is shown, as the drawer's `handleSave` does with its try/catch/finally | medium; not executed | `HomePage.FirstLoadThrows` | `HomePage.FirstLoadThrowsSettled` |
