# Nostr calendar app: model of the event, RSVP and update core

This project models the data layer of a calendar application built on Nostr.
The application uses three addressable event kinds:

- 31000 for calendar events;
- 31001 for RSVPs (a user's answer to an event);
- 31002 for updates an organiser posts about an event.

The model covers:

- the record types of the application;
- the codecs that turn these records into tagged Nostr events and back;
- the query hooks that build relay filters and decode, filter and sort the answers;
- the RSVP hooks and their head counts;
- the reminder hook that shows a toast 24 hours and 1 hour before an accepted event;
- the create, update and post mutations;
- the search and tag filters of the events page and of the map;
- the attendee list;
- the tag editing and submit logic of the event form.

The relay's replacement rule for addressable events (section "Kinds" of NIP-01: kinds 30000 to 39999 keep only the newest event per kind, author and `d` value) is not code of the application. It is stated once, in module `Relay`, as an assumption. Lemmas there show what the application's records look like to a reader under that rule.

Everything is a pure function over immutable datatypes. What the application takes from its environment is passed in as parameters:

- JSON parsing and serialising: `parse`/`stringify`. Round-trip lemmas require `parse(stringify(x)) == Some(x)` for the record at hand.
- Date parsing: `startMs`, a date string to milliseconds.
- The clock: `nowMs`, and `clock` for identifiers.
- The relay's answers: `results`, plus `fetch` for the per-identifier queries.
- The upload service, date formatting, and `parseFloat`/`parseInt`.

Modules follow the source files:

- `Wire`, `Types`, `EventCodec`, `RsvpCodec`, `UpdateCodec`: src/lib/nostr.
- `EventQueries`, `EventUpdates`, `RsvpHooks`, `Notifications`, `EventActions`: src/hooks/events.
- `EventsPage`, `EventsMap`, `RsvpList`, `EventForm`: the pages and components.
- `Filters` (relay filters) and `Mutations` (mutation outcomes, query-key invalidation): shared vocabulary.
- `Seqs`, `Sorting`, `Text`, `Wrappers`: generic helpers.

Where the written description of the application and the code disagree, the model follows the code. One such case: the update decoder does not validate the `type` tag. Any non-empty value passes through, and `announcement` is used only when the tag is missing or empty (`UpdateCodec.UnknownTypePassesThrough`). The default page size of `useEvents` is 20, as in the code.

## Model

| member | source | states |
|---|---|---|
| Types.ParseStatus | src/lib/nostr/types.ts:26-30 | a status string is accepted exactly when it is one of `yes`, `no`, `maybe`, and it maps back to that same name |
| Types.ParseUpdateType | src/lib/nostr/types.ts:32-39 | an update type is one of exactly three names, and parsing inverts naming |
| Types.NonEmpty | src/components/events/EventForm.tsx:133-145 | `x \|\| undefined`: defined exactly when the text is non-empty, and then equal to it |
| Wire.Sign | src/lib/nostr/eventUtils.ts:120-125 | a creator returns only kind, tags and content; signing adds the author and the time and changes nothing else |
| Wire.Find | src/lib/nostr/eventUtils.ts:17 | `tags.find(tag[0] === name)`: nothing exactly when no tag has the name, otherwise the first tag with it |
| Wire.Lookup | src/lib/nostr/eventUtils.ts:17-18 | `tag && tag[1]`: a value exactly when the first tag of the name has a non-empty value, and then that value |
| Wire.Values | src/lib/nostr/eventUtils.ts:42 | a value is listed exactly when some tag of the name carries it; empty when there is no such tag |
| Wire.PairValues | src/lib/nostr/eventUtils.ts:45-47 | a value is listed exactly when some tag of the name with at least two elements carries it; empty when there are none |
| Wire.ValuesOfOne | src/lib/nostr/eventUtils.ts:42-47 | one tag contributes its value exactly when it has the name (and, for pairs, a second element); with the append lemmas this fixes the values of any list, in tag order |
| Wire.ValuesOfRepeat | src/lib/nostr/eventUtils.ts:106-113 | one tag pushed per value reads back as the same list of values |
| Wire.ReferenceTagLookups | src/lib/nostr/eventUtils.ts:174-179 | the `d`/`e`/`p`/marker tag layout of RSVPs and updates reads back as the identifier, the referenced event, the creator and the marker value |
| EventCodec.Decode | src/lib/nostr/eventUtils.ts:12-20 | decoding fails exactly when the payload does not parse or the first `d` tag has no non-empty value |
| EventCodec.DecodeFields | src/lib/nostr/eventUtils.ts:20-39 | identifier from the first `d` tag; title, start, end and image from their first non-empty tag, else the payload; co-hosts from the `p` pairs; author and time from the signed event |
| EventCodec.DecodeCollections | src/lib/nostr/eventUtils.ts:41-67 | `t` values replace the payload's topics when there is at least one; a non-empty `location` tag replaces the payload location by `{name}`, and without one (no tag, or an empty or missing value in the first) the payload location is kept; the relay hint is the first non-empty `r` |
| EventCodec.Encode | src/lib/nostr/eventUtils.ts:78-126 | `d`, `subject`, `start` first; `end`, `location`, `image`, `r` present exactly when their value is truthy; one `t` per topic and one `p` per co-host; payload serialised |
| EventCodec.EncodedLookups | src/lib/nostr/eventUtils.ts:86-118 | each single-valued tag the encoder writes is read back by the decoder's lookup as the value it was given |
| EventCodec.RoundTrip | src/lib/nostr/eventUtils.ts:12-126 | decoding an encoded event returns the record, with the location reduced to its name and an empty relay hint dropped; an empty identifier makes it undecodable |
| EventCodec.EncodeIgnoresAuthor | src/lib/nostr/eventUtils.ts:78-84 | the `pubkey` argument of the event encoder has no influence on the draft |
| RsvpCodec.PartySize | src/lib/nostr/eventUtils.ts:150 | `attendees \|\| 1`: never zero, 1 when missing or zero, the given number otherwise |
| RsvpCodec.PartySizeIdempotent | src/lib/nostr/eventUtils.ts:150 | defaulting a party size twice changes nothing |
| RsvpCodec.Decode | src/lib/nostr/eventUtils.ts:131-159 | an RSVP decodes exactly when the payload parses, there is a non-empty `e` value and the status is one of the three names; the result carries that event, the signer and the defaulted party size |
| RsvpCodec.Encode | src/lib/nostr/eventUtils.ts:164-187 | the `d` tag is the first eight key characters, `_` and the event id; `e`, `p` and `status` carry the event, the creator and the status |
| RsvpCodec.RoundTrip | src/lib/nostr/eventUtils.ts:131-187 | decoding an encoded RSVP returns it with its party size defaulted, for the event and by the signer; an empty event id makes it undecodable |
| RsvpCodec.RsvpIdDeterministic | src/lib/nostr/eventUtils.ts:171 | two RSVPs by one user share their `d` tag exactly when they answer the same event |
| RsvpCodec.StatusTagIgnored | src/lib/nostr/eventUtils.ts:142-144 | the status comes from the payload; a `status` tag inserted anywhere in the tags leaves the decoded response unchanged |
| UpdateCodec.Decode | src/lib/nostr/eventUtils.ts:192-222 | an update decodes exactly when its `d` and `e` tags have non-empty values; the type is the first non-empty `type` value, else `announcement` |
| UpdateCodec.UpdateIdsDistinct | src/lib/nostr/eventUtils.ts:234 | `update_<ms>` identifiers coincide exactly when the clock readings do |
| UpdateCodec.Encode | src/lib/nostr/eventUtils.ts:227-250 | the draft reads back as the update's identifier, event, creator and type, with the content verbatim |
| UpdateCodec.RoundTrip | src/lib/nostr/eventUtils.ts:192-250 | decoding an encoded update returns its content, type, event and signer; an empty event id makes it undecodable |
| UpdateCodec.UnknownTypePassesThrough | src/lib/nostr/eventUtils.ts:207-208 | a `type` value outside the three declared names is accepted and kept as it is |
| Filters.TagQuery | src/hooks/events/useEventQueries.ts:17-20 | a filter of one kind and the given tag constraints, with no author, time or limit bound |
| EventQueries.EventByIdFilter | src/hooks/events/useEventQueries.ts:17-20 | the single-event query asks for kind 31000 with the given `d` value |
| EventQueries.LoadEvent | src/hooks/events/useEventQueries.ts:24-33 | "Event not found" exactly for an empty answer; "Failed to parse" exactly when the first event does not decode; otherwise the decoded first event |
| EventQueries.LoadEventFirstOnly | src/hooks/events/useEventQueries.ts:28 | events after the first in the relay's answer do not influence the result |
| EventQueries.LoadPublished | src/hooks/events/useEventQueries.ts:10-37 | an event published and returned first loads back as the record that was encoded |
| EventQueries.EventsFilter | src/hooks/events/useEventQueries.ts:50-80 | limit defaults to 20; `since`/`until` only when set and non-zero; authors only when non-empty; each tag constraint only when non-empty |
| EventQueries.ListEvents | src/hooks/events/useEventQueries.ts:85-94 | the decodable events of the answer, as a permutation of them, sorted by start time |
| EventQueries.ListEventsCount | src/hooks/events/useEventQueries.ts:85-87 | the list has one entry per decodable event and is never longer than the answer |
| EventQueries.TopicFilter | src/hooks/events/useEventQueries.ts:117-122 | a `t` constraint exactly when topics were given, holding those topics |
| EventQueries.MidnightSeconds | src/hooks/events/useEventQueries.ts:113-115 | `Math.floor(ms / 1000)`: the whole second containing midnight |
| EventQueries.UpcomingPastSplit | src/hooks/events/useEventQueries.ts:105-160 | upcoming and past filters differ only in bounding the same midnight from below or from above |
| EventQueries.UpcomingTopics | src/hooks/events/useEventQueries.ts:117-128 | the upcoming filter has a topic constraint exactly when topics were selected, and no other tag constraint |
| EventUpdates.UpdatesFilter | src/hooks/events/useEventUpdates.ts:15-21 | updates are queried by kind 31002 and the event's `e` value |
| EventUpdates.ListUpdates | src/hooks/events/useEventUpdates.ts:24-29 | the decodable updates of the answer, as a permutation of them, newest first |
| EventUpdates.LatestFirst | src/hooks/events/useEventUpdates.ts:29 | the first listed update is at least as new as every other one |
| EventUpdates.PostedUpdateListed | src/hooks/events/useEventUpdates.ts:9-35 | an update posted for an event appears in that event's update list, wherever the relay returns it |
| RsvpHooks.EventRsvpsFilter | src/hooks/events/useRSVP.ts:18-25 | RSVPs of an event are queried by kind 31001, its `e` value and the creator's `p` value |
| RsvpHooks.Tally | src/hooks/events/useRSVP.ts:33-43 | each count is the total party size of the responses with that status; together they total every party |
| RsvpHooks.EventRsvps | src/hooks/events/useRSVP.ts:28-43 | the i-th response is the decoding of the i-th decodable result, in relay order, one per decodable result; for each status, the total party size of its responses |
| RsvpHooks.EventRsvpsAppend | src/hooks/events/useRSVP.ts:28-43 | the responses of two answers read in turn are those of the first followed by those of the second, and every count adds up |
| RsvpHooks.SingleResult | src/hooks/events/useRSVP.ts:28-30 | one result yields its response when it decodes and nothing otherwise |
| RsvpHooks.TotalPartyAtLeastCount | src/hooks/events/useRSVP.ts:36-41 | with every party at least one person, the head count is at least the number of responses |
| RsvpHooks.SingleResponse | src/hooks/events/useRSVP.ts:36-41 | one response adds its party size to its own status and nothing to the others |
| RsvpHooks.UserRsvpFilter | src/hooks/events/useRSVP.ts:68-76 | a user's own response is queried by kind 31001, that author, the event and the creator |
| RsvpHooks.UserRsvp | src/hooks/events/useRSVP.ts:57-87 | nothing when signed out, when the answer is empty or when its first event does not decode; otherwise the first response |
| RsvpHooks.UserRsvpFirstOnly | src/hooks/events/useRSVP.ts:78-83 | events after the first do not influence the user's response |
| RsvpHooks.SubmitRsvp | src/hooks/events/useRSVP.ts:92-149 | signed out: the "RSVP Failed" toast; otherwise the encoded RSVP, both RSVP queries of the event invalidated and the status-specific toast |
| RsvpHooks.SubmitInvalidates | src/hooks/events/useRSVP.ts:125-131 | a submission marks this event's RSVP queries stale and no other event's |
| RsvpHooks.ResubmitSameSlot | src/hooks/events/useRSVP.ts:112-117 | two submissions by one user land in the same slot exactly when they answer the same event |
| RsvpHooks.SubmitThenRead | src/hooks/events/useRSVP.ts:57-149 | what a user submits is what the user's RSVP query reads back, with the party size defaulted |
| Notifications.OwnRsvpsFilter | src/hooks/events/useEventNotifications.ts:31-36 | the user's own responses are queried by kind 31001 and that author alone |
| Notifications.YesResponses | src/hooks/events/useEventNotifications.ts:39-41 | exactly the decodable responses whose status is `yes`, in the order the responses are read |
| Notifications.YesEventIds | src/hooks/events/useEventNotifications.ts:39-42 | the events answered `yes`, one entry per such response, position by position |
| Notifications.YesEventIdsAppend | src/hooks/events/useEventNotifications.ts:39-42 | two answers read in turn give the events of the first, then those of the second |
| Notifications.YesEventIdsOne | src/hooks/events/useEventNotifications.ts:39-42 | one response contributes its event exactly when it decodes with status `yes` |
| Notifications.EventByIdFilter | src/hooks/events/useEventNotifications.ts:59-61 | each accepted event is fetched by kind 31000 and its `d` value |
| Notifications.Reminder | src/hooks/events/useEventNotifications.ts:70-101 | an event with a parsed payload and a non-empty `d` value is kept exactly when its start (first `start` tag, else the payload) lies after the current whole second, and never otherwise; the start is that value and title, description, end, location, author and time come from the payload and the event |
| Notifications.Fetched | src/hooks/events/useEventNotifications.ts:57-67 | the flattened answers hold exactly the events fetched for some accepted identifier |
| Notifications.UpcomingRsvpdEvents | src/hooks/events/useEventNotifications.ts:46-104 | nothing when signed out; otherwise exactly the fetched events that survive the reminder decoding, all not yet started |
| Notifications.FirstDue | src/hooks/events/useEventNotifications.ts:120-145 | the first lead time whose window is open and whose reminder was not shown in the last hour, or none when no lead qualifies |
| Notifications.ShouldNotify | src/hooks/events/useEventNotifications.ts:107-148 | no reminder for an event that has started; otherwise 24 or 1 exactly when that lead is due, 24 taking precedence |
| Notifications.ReminderToast | src/hooks/events/useEventNotifications.ts:163-168 | "Upcoming Event: title", and "Starting in …", with " at name" only for a non-empty location name |
| Notifications.NoRefireWithinHour | src/hooks/events/useEventNotifications.ts:126-135 | once a reminder is recorded, the same reminder is not due again within the hour |
| Notifications.ReminderScenarios | src/hooks/events/useEventNotifications.ts:117-141 | an event 23 h 58 min away gets the "24 hours" reminder; an event one minute away gets none |
| Notifications.Tick | src/hooks/events/useEventNotifications.ts:154-170 | corrected run: one check fires at most one reminder per event |
| Notifications.TickRecords | src/hooks/events/useEventNotifications.ts:132-135 | corrected run: every reminder fired is recorded at the current time, and no earlier record is lost |
| Notifications.TickFromEvents | src/hooks/events/useEventNotifications.ts:158-159 | corrected run: every reminder fired is for one of the events checked |
| Notifications.TickFiresDue | src/hooks/events/useEventNotifications.ts:126-135 | corrected run: every reminder fired was not shown in the hour before, and no reminder fires twice in one check |
| Notifications.Toasts | src/hooks/events/useEventNotifications.ts:158-169 | corrected run: one toast per reminder fired, in order |
| Notifications.TickNoRefire | src/hooks/events/useEventNotifications.ts:126-135 | corrected run: a check within the hour after another fires none of the reminders the first one fired |
| Notifications.TickAsWritten | src/hooks/events/useEventNotifications.ts:132-135 | the check as written: each due reminder fires, and the stored map ends as the start map plus the last firing only |
| Notifications.KeysDistinct | src/hooks/events/useEventNotifications.ts:126 | reminders for one lead time share a storage key exactly when they are for the same event |
| Notifications.AsWrittenFirstRun | src/hooks/events/useEventNotifications.ts:132-135 | as written, two distinct events both exactly 24 hours away and nothing recorded: both reminders fire and only the second key is stored |
| Notifications.TickAsWrittenRepeatsReminder | src/hooks/events/useEventNotifications.ts:132-135 | as written, in that situation the first event's key is lost from the store and its reminder fires again on the next check |
| Notifications.CorrectedRuns | src/hooks/events/useEventNotifications.ts:126-135 | with every record kept, the same situation records both keys and the next check fires nothing |
| EventActions.EventId | src/hooks/events/useEventActions.ts:26 | event identifiers are `event_` followed by the clock |
| EventActions.EventIdsDistinct | src/hooks/events/useEventActions.ts:26 | two event identifiers coincide exactly when the clock readings do |
| EventActions.CreateEvent | src/hooks/events/useEventActions.ts:12-63 | signed out: "Event Creation Failed"; otherwise the encoded event under a fresh identifier, the listings invalidated and "Event Created" |
| EventActions.CreateEventDraft | src/hooks/events/useEventActions.ts:26-34 | the created draft carries the clock identifier, the payload without co-hosts, one `p` per co-host and no relay hint |
| EventActions.CreateThenDecode | src/hooks/events/useEventActions.ts:12-63 | a created event, signed by its author, decodes as the record entered |
| EventActions.UpdateEvent | src/hooks/events/useEventActions.ts:68-120 | signed out: "Event Update Failed"; otherwise the encoded event under the given identifier, listings and that event invalidated, "Event Updated" |
| EventActions.UpdateInvalidates | src/hooks/events/useEventActions.ts:101-102 | an edit marks every listing and this event's query stale, and not another event's query |
| EventActions.EditKeepsSlot | src/hooks/events/useEventActions.ts:26-93 | editing a created event under its identifier reuses its kind and `d` tag, so the relay replaces it |
| EventActions.UpdateTitle | src/hooks/events/useEventActions.ts:168-173 | each update type has its own toast title, and each title names one type |
| EventActions.PostUpdate | src/hooks/events/useEventActions.ts:125-190 | succeeds exactly for the signed-in creator; the two other failures carry their own messages; the type defaults to announcement |
| EventActions.PostThenDecode | src/hooks/events/useEventActions.ts:152-161 | a posted update, signed by the creator, decodes with the chosen type, the event and the content |
| EventsPage.FilterEvents | src/pages/events/EventsPage.tsx:33-50 | keeps, in order, exactly the events matching the trimmed lower-case query and the topic selection |
| EventsPage.FilterNothing | src/pages/events/EventsPage.tsx:34-48 | a blank query with no topic selected keeps every event in order |
| EventsPage.MatchesQueryOccurs | src/pages/events/EventsPage.tsx:38-42 | the query matches exactly when it occurs at some position of title, description, location name or a topic |
| EventsPage.TopicsOf | src/pages/events/EventsPage.tsx:56-60 | exactly the topics of the given events |
| EventsPage.AllTags | src/pages/events/EventsPage.tsx:53-63 | every topic of upcoming and past events, strictly ascending |
| EventsPage.AllTagsDistinct | src/pages/events/EventsPage.tsx:54-62 | no topic is listed twice |
| EventsPage.ToggleTag | src/pages/events/EventsPage.tsx:66-72 | an unselected tag is appended; a selected one is removed with every copy; membership of every other tag is unchanged |
| EventsPage.ToggleTwice | src/pages/events/EventsPage.tsx:66-72 | toggling twice restores membership, and restores the selection itself when the tag was not selected |
| EventsMap.MapSearch | src/components/events/EventsMap.tsx:45-54 | a blank query keeps every event; otherwise, in order, exactly the events whose title, description, location name, address or a topic contains it |
| EventsMap.MapSearchWider | src/components/events/EventsMap.tsx:47-53 | every event the page's search finds, the map's search finds as well |
| EventsMap.AddressOnlyOnMap | src/components/events/EventsMap.tsx:51 | an event matching by address only is found on the map and not on the events page |
| EventsMap.WithCoordinates | src/components/events/EventsMap.tsx:59-61 | in order, exactly the events with non-zero latitude and longitude |
| EventsMap.Centre | src/components/events/EventsMap.tsx:65-82 | the mean of the marker positions, or the default centre without markers |
| EventsMap.CentreInside | src/components/events/EventsMap.tsx:65-79 | markers inside a box put the centre inside that box |
| EventsMap.Refresh | src/components/events/EventsMap.tsx:41-83 | nothing changes before events load; then the searched list, its placeable events and their centre |
| EventsMap.EquatorExcluded | src/components/events/EventsMap.tsx:59-61 | an event at latitude 0 gets no marker and the map falls back to the default centre |
| RsvpList.Partitioned | src/components/events/RSVPList.tsx:17-25 | three empty lists without data; otherwise, in order, the responses of each status |
| RsvpList.PartitionComplete | src/components/events/RSVPList.tsx:20-22 | the three lists together hold every response exactly as often as it occurs |
| RsvpList.DisplayedCounts | src/components/events/RSVPList.tsx:27 | the loaded counts, or zero counts without data |
| RsvpList.CountsMatchTabs | src/components/events/RSVPList.tsx:17-27 | each count shown equals the total party size of its tab |
| RsvpList.Guests | src/components/events/RSVPList.tsx:159-161 | a guest line exactly for parties over one, counting everyone but the responder |
| RsvpList.GuestsMakeParty | src/components/events/RSVPList.tsx:124-161 | the responder plus the guests shown make the party size |
| EventForm.AddTag | src/components/events/EventForm.tsx:81-86 | a blank or already listed input changes nothing; otherwise the trimmed input is appended and the input cleared |
| EventForm.RemoveTag | src/components/events/EventForm.tsx:89-91 | every copy of the tag goes, the rest keep their order |
| EventForm.RunNoDuplicates | src/components/events/EventForm.tsx:81-91 | any sequence of typing, adding and removing keeps the topic list free of repeats |
| EventForm.NormaliseRules | src/components/events/EventForm.tsx:127-146 | empty optional texts and an empty topic list are dropped, the link is kept exactly for a virtual event, and an end date without a time ends at 23:59 |
| EventForm.Submit | src/components/events/EventForm.tsx:105-171 | sign-in alert, then missing-field alert, then upload failure; otherwise update for an existing event under its identifier and co-hosts, create otherwise, both with the normalised record |
| EventForm.EditRepublishes | src/components/events/EventForm.tsx:148-158 | saving an edited event republishes it under its own `d` value with its co-hosts |
| Relay.Publish | src/lib/nostr/eventUtils.ts:5-7 | assumed relay rule for the addressable kinds these constants fall in: a newer event replaces its slot, an older one is ignored, events of other slots stay stored and nothing else is added |
| Relay.PublishKeepsOnePerSlot | src/lib/nostr/eventUtils.ts:5-7 | under the assumed rule a store never holds two addressable events in one slot |
| Relay.ChangeOfMind | src/hooks/events/useRSVP.ts:112-131 | a user's "yes" followed by "maybe" leaves only the "maybe" stored, and the counts read one maybe and no yes |

## Left out

- Types: payloads whose JSON lacks a required field, and the extra fields `...content` copies from an arbitrary payload, are outside the model. The payload is the declared `NostrEventData` shape.
- `rawEvent` and `rsvpCount` are not filled by the model's decoder. The first is the undecoded event object; the second is not computed anywhere in the modelled code.
- Text: `toLowerCase` is modelled for ASCII letters only. `trim` uses JavaScript's whitespace set restricted to single code units. There is no Unicode case folding.
- Wire.Values: a `t` tag with no second element yields `undefined` in JavaScript; the model yields "".
- Sorting: event starts are compared as integer milliseconds from the `startMs` parameter. Invalid dates (NaN) and the engine's particular sort algorithm are not modelled; the model's sort is stable. Strings are ordered by character code.
- Dates: parsing, `format`, time zones, `setHours` and the midnight computation are parameters. `formatDateWithTime` throwing on a malformed time is not modelled.
- EventsMap: coordinates are reals rather than IEEE doubles. NaN and rounding of the mean are not modelled.
- Mutations: publishing is modelled as fire-and-forget, as the hooks call `mutate`. Relay rejections after publishing and navigation after creation are not modelled.
- React Query: `enabled` flags, caching and retries are not modelled. Query keys with object parts are modelled as strings; a missing user key is "".
- Notifications: the one-minute interval and the hook's React lifecycle are not modelled; each tick is one call with one clock reading. Persistence of the reminder map goes through useLocalStorage, which is not part of this model.
- Notifications.Tick: models the corrected check, which records each reminder before the next event is looked at; the code as written is `Notifications.TickAsWritten` (see Findings). The rows marked "corrected run" (Tick, TickRecords, TickFromEvents, TickFiresDue, Toasts, TickNoRefire) do not hold of the code as written: there only the last reminder of a check is recorded, and two fetched events with one `d` value (the `#d` query has no author filter) both fire in one check, while `Tick` fires at most one reminder per key. Its own contract bounds only the number of reminders; what it records, where its reminders come from and that they are due are stated by TickRecords, TickFromEvents and TickFiresDue.
- Notifications.UpcomingRsvpdEvents: the per-event `try`/`catch` around `JSON.parse` is modelled as skipping events whose payload does not parse.
- EventActions: the ICS export (`useExportToCalendar`, src/hooks/events/useEventActions.ts:195-224) is file generation and download, not part of the data core.
- EventForm: prefilling from an existing event and the image preview are not modelled. Neither is the `isPending` flag.
- Relay: ties between events of one slot with equal `created_at` are not broken by id as NIP-01 prescribes; the model lets the later publication replace the stored one. The relay is an assumption, not application code.
- Signatures and event ids are not modelled; `Sign` only adds the author and the time.

## Findings

| source | as written | input that shows it | evidently intended | confidence | as-written member | corrected member |
|---|---|---|---|---|---|---|
| src/hooks/events/useEventNotifications.ts:132-135 | every reminder fired in one check stores `{...lastNotified, [key]: now}` from the same captured map, so only the last firing of the check is recorded | two accepted events with different ids, both exactly 24 hours away, nothing recorded yet: both fire, only the second key is stored, and the first fires again on the next check | every reminder shown is recorded, and none is shown again within the hour | not executed; relies on the useLocalStorage setter replacing the stored value, and useLocalStorage is not part of this model | Notifications.TickAsWrittenRepeatsReminder | Notifications.TickNoRefire |
