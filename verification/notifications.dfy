/** Reminders before events the user has accepted
    (hooks/events/useEventNotifications.ts). Every minute the hook loads the
    user's "yes" responses, fetches the events they answer, keeps the ones
    that have not started, and shows a toast for each event that is within
    five minutes of 24 hours or of 1 hour away, unless the same reminder was
    shown in the last hour. When each reminder was last shown is kept in a
    map from `<event id>_<hours>` to a time in milliseconds.

    The clock (`Date.now()`) is the parameter `nowMs`; date strings are read
    by the parameter `startMs`; the relay query by event id is the parameter
    `fetch`. */
module Notifications {
  import opened Wrappers
  import opened Text
  import opened Types
  import opened Wire
  import opened Filters
  import opened Seqs
  import RsvpCodec
  import RsvpHooks

  const HourMs: int := 3600000
  /** Five minutes, the tolerance around each lead time. */
  const WindowMs: int := 300000

  /** `DEFAULT_NOTIFICATION_TIMES`, in hours before the start. */
  const Leads: seq<nat> := [24, 1]

  // ------------------------------------------------ the events to watch

  /** `{ kinds: [RSVP_KIND], authors: [user] }`. */
  function OwnRsvpsFilter(user: string): (f: Filter)
    ensures f.kinds == [RsvpKind] && f.authors == Some([user]) && f.tagFilters == map[]
  {
    TagQuery(RsvpKind, map[]).(authors := Some([user]))
  }

  /** The user's decodable "yes" responses, in relay order. */
  function YesResponses(rsvps: seq<WireEvent>, parse: string -> Option<RsvpCodec.RsvpPayload>): (ps: seq<RsvpCodec.ParsedRsvp>)
    ensures forall p :: p in ps <==> p.rsvp.status == Yes && exists w :: w in rsvps && RsvpCodec.Decode(w, parse) == Some(p)
    ensures ps == Seqs.Filter(RsvpHooks.EventRsvps(rsvps, parse).rsvps, RsvpHooks.HasStatus(Yes))
  {
    Seqs.Filter(Keep(rsvps, RsvpHooks.DecodeWith(parse)), RsvpHooks.HasStatus(Yes))
  }

  /** The events those responses answer: `.map(rsvp => rsvp!.eventId)`. */
  function YesEventIds(rsvps: seq<WireEvent>, parse: string -> Option<RsvpCodec.RsvpPayload>): (ids: seq<string>)
    ensures |ids| == |YesResponses(rsvps, parse)|
    ensures forall id :: id in ids <==> exists p :: p in YesResponses(rsvps, parse) && p.eventId == id
    ensures forall i :: 0 <= i < |ids| ==> ids[i] == YesResponses(rsvps, parse)[i].eventId
  {
    var yes := YesResponses(rsvps, parse);
    var eventId := (p: RsvpCodec.ParsedRsvp) => p.eventId;
    MapSeqMembers(yes, eventId);
    MapSeq(yes, eventId)
  }

  /** The scan reads two answers one after the other: the events of the
      first, then those of the second. With `YesEventIdsOne` this fixes the
      identifiers of any answer, in relay order. */
  lemma YesEventIdsAppend(a: seq<WireEvent>, b: seq<WireEvent>, parse: string -> Option<RsvpCodec.RsvpPayload>)
    ensures YesResponses(a + b, parse) == YesResponses(a, parse) + YesResponses(b, parse)
    ensures YesEventIds(a + b, parse) == YesEventIds(a, parse) + YesEventIds(b, parse)
  {
    KeepAppend(a, b, RsvpHooks.DecodeWith(parse));
    FilterAppend(Keep(a, RsvpHooks.DecodeWith(parse)), Keep(b, RsvpHooks.DecodeWith(parse)), RsvpHooks.HasStatus(Yes));
  }

  /** One response contributes its event exactly when it decodes with
      status `yes`. */
  lemma YesEventIdsOne(w: WireEvent, parse: string -> Option<RsvpCodec.RsvpPayload>)
    ensures var d := RsvpCodec.Decode(w, parse);
      YesEventIds([w], parse) == (if d.Some? && d.value.rsvp.status == Yes then [d.value.eventId] else [])
  {
    KeepOne(w, RsvpHooks.DecodeWith(parse));
    var k := Keep([w], RsvpHooks.DecodeWith(parse));
    if |k| == 1 {
      assert k[1..] == [];
    }
  }

  /** `{ kinds: [31000], '#d': [id] }`. */
  function EventByIdFilter(id: string): (f: Filter)
    ensures f.kinds == [EventKind] && f.tagFilters == map["d" := [id]]
  {
    TagQuery(EventKind, map["d" := [id]])
  }

  /** The loop body of `fetchUpcomingRSVPdEvents`: its own light decoding of
      an event (title, description, end and location from the payload only;
      start from the first `start` tag, else the payload), kept only when
      the start lies after the current whole second. */
  function Reminder(w: WireEvent, parse: string -> Option<EventData>, startMs: string -> int, nowMs: int): (r: Option<EventWithMeta>)
    ensures r.Some? ==>
      && parse(w.content).Some?
      && Lookup(w.tags, "d") == Some(r.value.id)
      && r.value.id != ""
      && startMs(r.value.data.startDate) > (nowMs / 1000) * 1000
      && r.value.data.title == parse(w.content).value.title
      && r.value.data.location == parse(w.content).value.location
      && r.value.pubkey == w.pubkey
    ensures parse(w.content).None? || Lookup(w.tags, "d").None? ==> r.None?
    ensures parse(w.content).Some? && Lookup(w.tags, "d").Some? ==>
      (r.Some? <==> startMs(OrElse(Lookup(w.tags, "start"), parse(w.content).value.startDate)) > (nowMs / 1000) * 1000)
    ensures r.Some? ==>
      var p := parse(w.content).value;
      && r.value.data.startDate == OrElse(Lookup(w.tags, "start"), p.startDate)
      && r.value.data.description == p.description
      && r.value.data.endDate == p.endDate
      && r.value.createdAt == w.createdAt
  {
    match parse(w.content)
    case None => None
    case Some(p) =>
      match Lookup(w.tags, "d")
      case None => None
      case Some(id) =>
        var startDate := OrElse(Lookup(w.tags, "start"), p.startDate);
        if startMs(startDate) > (nowMs / 1000) * 1000 then
          var data := EventData(p.title, p.description, startDate, p.endDate, p.location,
                                None, None, None, None, None, None, None, None);
          Some(EventWithMeta(data, id, w.pubkey, w.createdAt, None, None, None))
        else None
  }

  /** `Promise.all(ids.map(fetch))` flattened: every event fetched for
      some identifier, batch by batch. */
  function Fetched(ids: seq<string>, fetch: string -> seq<WireEvent>): (ws: seq<WireEvent>)
    ensures forall w :: w in ws <==> exists id :: id in ids && w in fetch(id)
  {
    var batches := MapSeq(ids, fetch);
    var all := Flatten(batches);
    assert forall w :: w in all <==> exists id :: id in ids && w in fetch(id) by {
      forall w
        ensures w in all <==> exists id :: id in ids && w in fetch(id)
      {
        if w in all {
          var i :| 0 <= i < |batches| && w in batches[i];
          assert ids[i] in ids;
        }
        if exists id :: id in ids && w in fetch(id) {
          var id :| id in ids && w in fetch(id);
          var i :| 0 <= i < |ids| && ids[i] == id;
          assert w in batches[i];
        }
      }
    }
    all
  }

  /** `fetchUpcomingRSVPdEvents`: nothing when signed out; otherwise the
      not-yet-started events fetched for the user's "yes" responses. */
  function UpcomingRsvpdEvents(user: Option<string>, rsvps: seq<WireEvent>,
                               parseRsvp: string -> Option<RsvpCodec.RsvpPayload>,
                               fetch: string -> seq<WireEvent>, parse: string -> Option<EventData>,
                               startMs: string -> int, nowMs: int): (r: seq<EventWithMeta>)
    ensures !RsvpHooks.SignedIn(user) ==> r == []
    ensures forall e :: e in r ==>
      startMs(e.data.startDate) > (nowMs / 1000) * 1000 && e.id != ""
    ensures forall e :: e in r <==>
      RsvpHooks.SignedIn(user)
      && exists w :: w in Fetched(YesEventIds(rsvps, parseRsvp), fetch) && Reminder(w, parse, startMs, nowMs) == Some(e)
  {
    if !RsvpHooks.SignedIn(user) then []
    else
      var all := Fetched(YesEventIds(rsvps, parseRsvp), fetch);
      var remind := (w: WireEvent) => Reminder(w, parse, startMs, nowMs);
      var r := Keep(all, remind);
      assert forall e :: e in r ==> startMs(e.data.startDate) > (nowMs / 1000) * 1000 && e.id != "" by {
        forall e | e in r
          ensures startMs(e.data.startDate) > (nowMs / 1000) * 1000 && e.id != ""
        {
          var w :| w in all && remind(w) == Some(e);
        }
      }
      r
  }

  // --------------------------------------------------------- one check

  /** `${event.id}_${hours}`. */
  function NotificationKey(id: string, lead: nat): string {
    id + "_" + NatToString(lead)
  }

  /** `lastNotified[key] || 0`. */
  function LastShown(last: map<string, int>, key: string): int {
    if key in last then last[key] else 0
  }

  /** `|hoursUntil - lead| < 5/60`, scaled to milliseconds. */
  predicate InWindow(startMs: int, nowMs: int, lead: nat) {
    -WindowMs < startMs - nowMs - lead * HourMs < WindowMs
  }

  /** The reminder for `lead` is due: in its window and not shown within the
      last hour. */
  predicate Due(id: string, startMs: int, nowMs: int, last: map<string, int>, lead: nat) {
    InWindow(startMs, nowMs, lead) && nowMs - LastShown(last, NotificationKey(id, lead)) > HourMs
  }

  /** The loop over the lead times: the first one that is due. */
  function FirstDue(id: string, startMs: int, nowMs: int, last: map<string, int>, leads: seq<nat>): (r: Option<nat>)
    ensures r.Some? ==> r.value in leads && Due(id, startMs, nowMs, last, r.value)
    ensures r.None? <==> forall i :: 0 <= i < |leads| ==> !Due(id, startMs, nowMs, last, leads[i])
  {
    if |leads| == 0 then None
    else if Due(id, startMs, nowMs, last, leads[0]) then Some(leads[0])
    else
      var rest := FirstDue(id, startMs, nowMs, last, leads[1..]);
      assert forall i :: 1 <= i < |leads| ==> leads[i] == leads[1..][i - 1];
      rest
  }

  /** `shouldNotify`: the lead time of the reminder to show now, if any. An
      event that has started never gets one. */
  function ShouldNotify(e: EventWithMeta, startMs: string -> int, nowMs: int, last: map<string, int>): (r: Option<nat>)
    ensures startMs(e.data.startDate) <= nowMs ==> r.None?
    ensures r.Some? ==> (r.value == 24 || r.value == 1) && Due(e.id, startMs(e.data.startDate), nowMs, last, r.value)
    ensures r.None? <==>
      startMs(e.data.startDate) <= nowMs
      || (!Due(e.id, startMs(e.data.startDate), nowMs, last, 24) && !Due(e.id, startMs(e.data.startDate), nowMs, last, 1))
  {
    var start := startMs(e.data.startDate);
    assert |Leads| == 2 && Leads[0] == 24 && Leads[1] == 1;
    if start <= nowMs then None
    else FirstDue(e.id, start, nowMs, last, Leads)
  }

  /** `notificationHours === 1 ? '1 hour' : `${notificationHours} hours``. */
  function TimeDescription(lead: nat): string {
    if lead == 1 then "1 hour" else NatToString(lead) + " hours"
  }

  datatype Toast = Toast(title: string, description: string)

  /** The toast for a reminder; the place is added when the location has a
      non-empty name. */
  function ReminderToast(e: EventWithMeta, lead: nat): (t: Toast)
    ensures t.title == "Upcoming Event: " + e.data.title
    ensures var at := if e.data.location.Some? && Truthy(e.data.location.value.name)
                      then " at " + e.data.location.value.name.value else "";
            t.description == "Starting in " + TimeDescription(lead) + at
  {
    var place := if e.data.location.Some? && Truthy(e.data.location.value.name)
                 then " at " + e.data.location.value.name.value else "";
    Toast("Upcoming Event: " + e.data.title, "Starting in " + TimeDescription(lead) + place)
  }

  /** Once a reminder is recorded at `nowMs`, it is not due again for an
      hour, whatever the start time. */
  lemma NoRefireWithinHour(e: EventWithMeta, startMs: string -> int, nowMs: int, laterMs: int,
                           last: map<string, int>, lead: nat)
    requires ShouldNotify(e, startMs, nowMs, last) == Some(lead)
    requires nowMs <= laterMs <= nowMs + HourMs
    ensures ShouldNotify(e, startMs, laterMs, last[NotificationKey(e.id, lead) := nowMs]) != Some(lead)
  {
  }

  /** An event 23 h 58 min away gets its 24-hour reminder; an event one
      minute away gets none, the 1-hour window having closed. */
  lemma ReminderScenarios(e: EventWithMeta, nowMs: int)
    requires nowMs > HourMs
    ensures ShouldNotify(e, _ => nowMs + 86280000, nowMs, map[]) == Some(24)
    ensures TimeDescription(24) == "24 hours"
    ensures ShouldNotify(e, _ => nowMs + 60000, nowMs, map[]).None?
  {
    assert NatToString(24) == "24" by {
      assert NatToString(2) == "2";
      assert NatToString(24) == NatToString(2) + [DigitChar(4)];
    }
    assert Due(e.id, nowMs + 86280000, nowMs, map[], 24);
  }

  // ------------------------------------------------------ one whole tick

  datatype Firing = Firing(event: EventWithMeta, lead: nat)

  function FiringKey(f: Firing): string {
    NotificationKey(f.event.id, f.lead)
  }

  datatype TickResult = TickResult(fired: seq<Firing>, last: map<string, int>)

  /** One run of `checkNotifications` with each record kept: the map each
      check sees includes the reminders shown earlier in the same run. */
  function Tick(events: seq<EventWithMeta>, startMs: string -> int, nowMs: int, last: map<string, int>): (t: TickResult)
    decreases |events|
    ensures |t.fired| <= |events|
  {
    if |events| == 0 then TickResult([], last)
    else
      var e := events[0];
      match ShouldNotify(e, startMs, nowMs, last)
      case None => Tick(events[1..], startMs, nowMs, last)
      case Some(lead) =>
        var key := NotificationKey(e.id, lead);
        var rest := Tick(events[1..], startMs, nowMs, last[key := nowMs]);
        TickResult([Firing(e, lead)] + rest.fired, rest.last)
  }

  /** Every reminder in `fired` is recorded in `m` at `nowMs`. */
  predicate Recorded(fired: seq<Firing>, m: map<string, int>, nowMs: int) {
    forall i :: 0 <= i < |fired| ==> FiringKey(fired[i]) in m && m[FiringKey(fired[i])] == nowMs
  }

  /** `m` keeps every record of `last` and only adds or overwrites records
      with `nowMs`. */
  predicate Extends(last: map<string, int>, m: map<string, int>, nowMs: int) {
    && (forall k :: k in last ==> k in m)
    && (forall k :: k in m ==> m[k] == nowMs || (k in last && m[k] == last[k]))
  }

  /** Every reminder in `fired` was due against `last`. */
  predicate AllDue(fired: seq<Firing>, last: map<string, int>, nowMs: int) {
    forall i :: 0 <= i < |fired| ==> nowMs - LastShown(last, FiringKey(fired[i])) > HourMs
  }

  predicate DistinctKeys(fired: seq<Firing>) {
    forall i, j :: 0 <= i < j < |fired| ==> FiringKey(fired[i]) != FiringKey(fired[j])
  }

  /** A run records each reminder it shows and keeps every earlier record. */
  lemma {:induction false} TickRecords(events: seq<EventWithMeta>, startMs: string -> int, nowMs: int,
                                       last: map<string, int>)
    decreases |events|
    ensures var t := Tick(events, startMs, nowMs, last);
      Recorded(t.fired, t.last, nowMs) && Extends(last, t.last, nowMs)
  {
    if |events| > 0 {
      var e := events[0];
      match ShouldNotify(e, startMs, nowMs, last)
      case None =>
        TickRecords(events[1..], startMs, nowMs, last);
      case Some(lead) =>
        var key := NotificationKey(e.id, lead);
        var after := last[key := nowMs];
        TickRecords(events[1..], startMs, nowMs, after);
        var rest := Tick(events[1..], startMs, nowMs, after);
        var t := Tick(events, startMs, nowMs, last);
        assert t == TickResult([Firing(e, lead)] + rest.fired, rest.last);
        assert key in after;
        assert Extends(after, rest.last, nowMs);
        assert rest.last[key] == nowMs;
    }
  }

  /** A run shows reminders only for the events it was given. */
  lemma {:induction false} TickFromEvents(events: seq<EventWithMeta>, startMs: string -> int, nowMs: int,
                                          last: map<string, int>)
    decreases |events|
    ensures forall f :: f in Tick(events, startMs, nowMs, last).fired ==> f.event in events
  {
    if |events| > 0 {
      var e := events[0];
      match ShouldNotify(e, startMs, nowMs, last)
      case None =>
        TickFromEvents(events[1..], startMs, nowMs, last);
      case Some(lead) =>
        var after := last[NotificationKey(e.id, lead) := nowMs];
        TickFromEvents(events[1..], startMs, nowMs, after);
        var rest := Tick(events[1..], startMs, nowMs, after);
        assert Tick(events, startMs, nowMs, last).fired == [Firing(e, lead)] + rest.fired;
    }
  }

  /** Every reminder a run shows was due against the map the run started
      from, and no reminder is shown twice in one run. */
  lemma {:induction false} TickFiresDue(events: seq<EventWithMeta>, startMs: string -> int, nowMs: int,
                                        last: map<string, int>)
    decreases |events|
    ensures var t := Tick(events, startMs, nowMs, last);
      AllDue(t.fired, last, nowMs) && DistinctKeys(t.fired)
  {
    if |events| > 0 {
      var e := events[0];
      match ShouldNotify(e, startMs, nowMs, last)
      case None =>
        TickFiresDue(events[1..], startMs, nowMs, last);
      case Some(lead) =>
        var key := NotificationKey(e.id, lead);
        var after := last[key := nowMs];
        TickFiresDue(events[1..], startMs, nowMs, after);
        var rest := Tick(events[1..], startMs, nowMs, after);
        var t := Tick(events, startMs, nowMs, last);
        assert t == TickResult([Firing(e, lead)] + rest.fired, rest.last);
        assert nowMs - LastShown(last, key) > HourMs;
        forall i | 0 <= i < |rest.fired|
          ensures FiringKey(rest.fired[i]) != key
          ensures nowMs - LastShown(last, FiringKey(rest.fired[i])) > HourMs
        {
          assert nowMs - LastShown(after, FiringKey(rest.fired[i])) > HourMs;
        }
    }
  }

  /** The toasts of a run, one per reminder shown. */
  function Toasts(fired: seq<Firing>): (ts: seq<Toast>)
    ensures |ts| == |fired|
    ensures forall i :: 0 <= i < |fired| ==> ts[i] == ReminderToast(fired[i].event, fired[i].lead)
  {
    MapSeq(fired, (f: Firing) => ReminderToast(f.event, f.lead))
  }

  /** Nothing shown in a run is shown again by a run within the next hour. */
  lemma {:induction false} TickNoRefire(events: seq<EventWithMeta>, later: seq<EventWithMeta>, startMs: string -> int,
                                        nowMs: int, laterMs: int, last: map<string, int>)
    requires nowMs <= laterMs <= nowMs + HourMs
    ensures var t1 := Tick(events, startMs, nowMs, last);
            var t2 := Tick(later, startMs, laterMs, t1.last);
            forall i, j :: 0 <= i < |t1.fired| && 0 <= j < |t2.fired| ==> FiringKey(t1.fired[i]) != FiringKey(t2.fired[j])
  {
    var t1 := Tick(events, startMs, nowMs, last);
    var t2 := Tick(later, startMs, laterMs, t1.last);
    TickRecords(events, startMs, nowMs, last);
    TickFiresDue(later, startMs, laterMs, t1.last);
    forall i, j | 0 <= i < |t1.fired| && 0 <= j < |t2.fired|
      ensures FiringKey(t1.fired[i]) != FiringKey(t2.fired[j])
    {
      var k := FiringKey(t1.fired[i]);
      assert LastShown(t1.last, k) == nowMs;
      assert laterMs - LastShown(t1.last, FiringKey(t2.fired[j])) > HourMs;
    }
  }

  // ------------------------------------------- the run as the hook writes it

  /** The reminders due in a run as written: every check reads the same
      captured map, so records made earlier in the run are not seen. */
  function DueAgainst(events: seq<EventWithMeta>, startMs: string -> int, nowMs: int,
                      captured: map<string, int>): (fs: seq<Firing>)
    ensures forall f :: f in fs <==> f.event in events && ShouldNotify(f.event, startMs, nowMs, captured) == Some(f.lead)
  {
    if |events| == 0 then []
    else
      var rest := DueAgainst(events[1..], startMs, nowMs, captured);
      assert forall x :: x in events <==> x == events[0] || x in events[1..];
      match ShouldNotify(events[0], startMs, nowMs, captured)
      case None => rest
      case Some(lead) => [Firing(events[0], lead)] + rest
  }

  /** `setLastNotified({ ...lastNotified, [key]: now })` per reminder, from
      the captured map: the stored map is the captured one plus only the
      last key recorded. */
  function TickAsWritten(events: seq<EventWithMeta>, startMs: string -> int, nowMs: int,
                         captured: map<string, int>): (t: TickResult)
    ensures forall f :: f in t.fired <==> f.event in events && ShouldNotify(f.event, startMs, nowMs, captured) == Some(f.lead)
    ensures |t.fired| == 0 ==> t.last == captured
    ensures |t.fired| > 0 ==> t.last == captured[FiringKey(t.fired[|t.fired| - 1]) := nowMs]
  {
    var fired := DueAgainst(events, startMs, nowMs, captured);
    if |fired| == 0 then TickResult(fired, captured)
    else TickResult(fired, captured[FiringKey(fired[|fired| - 1]) := nowMs])
  }

  /** Reminders for one lead time share a key only for one event. */
  lemma KeysDistinct(id1: string, id2: string, lead: nat)
    ensures NotificationKey(id1, lead) == NotificationKey(id2, lead) <==> id1 == id2
  {
    var s := "_" + NatToString(lead);
    assert NotificationKey(id1, lead) == id1 + s;
    assert NotificationKey(id2, lead) == id2 + s;
    if id1 + s == id2 + s {
      assert |id1| == |id2|;
      assert id1 == (id1 + s)[..|id1|];
      assert id2 == (id2 + s)[..|id2|];
    }
  }

  /** An event exactly 24 hours away is a candidate for its 24-hour reminder
      alone, which is due exactly when it was not shown in the last hour. */
  lemma DayAheadDue(e: EventWithMeta, startMs: string -> int, nowMs: int, m: map<string, int>)
    requires startMs(e.data.startDate) == nowMs + 24 * HourMs
    ensures ShouldNotify(e, startMs, nowMs, m)
      == (if nowMs - LastShown(m, NotificationKey(e.id, 24)) > HourMs then Some(24) else None)
  {
    assert !InWindow(startMs(e.data.startDate), nowMs, 1);
    assert InWindow(startMs(e.data.startDate), nowMs, 24);
  }

  /** The situation of the example below: two accepted events with different
      identifiers, both starting exactly 24 hours from now, the clock being
      more than an hour past the epoch. */
  predicate DayAheadPair(a: EventWithMeta, b: EventWithMeta, startMs: string -> int, nowMs: int) {
    && a.id != b.id
    && nowMs > HourMs
    && startMs(a.data.startDate) == nowMs + 24 * HourMs
    && startMs(b.data.startDate) == nowMs + 24 * HourMs
  }

  /** As written, the first run with nothing recorded shows both reminders
      and stores only `b`'s key. */
  lemma AsWrittenFirstRun(a: EventWithMeta, b: EventWithMeta, startMs: string -> int, nowMs: int)
    requires DayAheadPair(a, b, startMs, nowMs)
    ensures TickAsWritten([a, b], startMs, nowMs, map[])
      == TickResult([Firing(a, 24), Firing(b, 24)], map[NotificationKey(b.id, 24) := nowMs])
  {
    DayAheadDue(a, startMs, nowMs, map[]);
    DayAheadDue(b, startMs, nowMs, map[]);
    assert [a, b][1..] == [b];
    assert [b][1..] == [];
    assert DueAgainst([b], startMs, nowMs, map[]) == [Firing(b, 24)];
  }

  /** As written, the re-run sees only `b`'s record and shows `a` again. */
  lemma AsWrittenSecondRun(a: EventWithMeta, b: EventWithMeta, startMs: string -> int, nowMs: int)
    requires DayAheadPair(a, b, startMs, nowMs)
    ensures Firing(a, 24) in TickAsWritten([a, b], startMs, nowMs, map[NotificationKey(b.id, 24) := nowMs]).fired
  {
    KeysDistinct(a.id, b.id, 24);
    DayAheadDue(a, startMs, nowMs, map[NotificationKey(b.id, 24) := nowMs]);
  }

  /** Keeping every record, the first run records both keys and the re-run
      shows nothing. */
  lemma CorrectedRuns(a: EventWithMeta, b: EventWithMeta, startMs: string -> int, nowMs: int)
    requires DayAheadPair(a, b, startMs, nowMs)
    ensures var first := Tick([a, b], startMs, nowMs, map[]);
      && first == TickResult([Firing(a, 24), Firing(b, 24)],
                             map[NotificationKey(a.id, 24) := nowMs, NotificationKey(b.id, 24) := nowMs])
      && Tick([a, b], startMs, nowMs, first.last).fired == []
  {
    var ka := NotificationKey(a.id, 24);
    var kb := NotificationKey(b.id, 24);
    var both := map[ka := nowMs, kb := nowMs];
    KeysDistinct(a.id, b.id, 24);
    DayAheadDue(a, startMs, nowMs, map[]);
    DayAheadDue(b, startMs, nowMs, map[ka := nowMs]);
    DayAheadDue(a, startMs, nowMs, both);
    DayAheadDue(b, startMs, nowMs, both);
    assert [a, b][1..] == [b];
    assert [b][1..] == [];
    assert Tick([b], startMs, nowMs, map[ka := nowMs]) == TickResult([Firing(b, 24)], both);
    assert Tick([b], startMs, nowMs, both).fired == [];
  }

  /** Two accepted events with different identifiers, both exactly 24 hours
      away, nothing shown yet. As written, the first run shows both reminders
      but stores only the second key; the hook then re-runs the check at once
      (its callback changed with the stored map) and shows the first event's
      24-hour reminder a second time. `CorrectedRuns` shows the same
      situation with every record kept. */
  lemma TickAsWrittenRepeatsReminder(a: EventWithMeta, b: EventWithMeta, startMs: string -> int, nowMs: int)
    requires DayAheadPair(a, b, startMs, nowMs)
    ensures Firing(a, 24) in TickAsWritten([a, b], startMs, nowMs, map[]).fired
    ensures NotificationKey(a.id, 24) !in TickAsWritten([a, b], startMs, nowMs, map[]).last
    ensures Firing(a, 24) in TickAsWritten([a, b], startMs, nowMs, TickAsWritten([a, b], startMs, nowMs, map[]).last).fired
  {
    KeysDistinct(a.id, b.id, 24);
    AsWrittenFirstRun(a, b, startMs, nowMs);
    AsWrittenSecondRun(a, b, startMs, nowMs);
  }
}
