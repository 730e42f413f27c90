/** The write hooks for events (hooks/events/useEventActions.ts): create an
    event, republish an edited one, and post an update note. The clock that
    names new records is the parameter `clock`. */
module EventActions {
  import opened Wrappers
  import opened Text
  import opened Types
  import opened Wire
  import opened Mutations
  import EventCodec
  import UpdateCodec
  import RsvpHooks

  /** `event_${Date.now()}`. */
  function EventId(clock: nat): (id: string)
    ensures |id| > 6 && id[..6] == "event_"
  {
    "event_" + NatToString(clock)
  }

  /** Distinct clock readings name distinct events. */
  lemma EventIdsDistinct(c1: nat, c2: nat)
    ensures EventId(c1) == EventId(c2) <==> c1 == c2
  {
    if EventId(c1) == EventId(c2) {
      assert NatToString(c1) == EventId(c1)[6..];
      assert NatToString(c2) == EventId(c2)[6..];
      NatToStringInjective(c1, c2);
    }
  }

  /** `useCreateEvent`: the co-hosts travel as `p` tags, not in the payload;
      the new event's queries go stale. */
  function CreateEvent(user: Option<string>, data: EventData, coHosts: Option<seq<string>>, clock: nat,
                       stringify: EventData -> string): (res: Result<Published, Failure>)
    ensures res.Err? <==> !RsvpHooks.SignedIn(user)
    ensures res.Err? ==> res.error == Failure("Event Creation Failed", NotLoggedIn)
    ensures res.Ok? ==>
      && res.value.draft == EventCodec.Encode(data, user.value, EventId(clock), coHosts, None, stringify)
      && res.value.invalidated == [["events"]]
      && res.value.toastTitle == "Event Created"
  {
    if !RsvpHooks.SignedIn(user) then Err(Failure("Event Creation Failed", NotLoggedIn))
    else
      Ok(Published(EventCodec.Encode(data, user.value, EventId(clock), coHosts, None, stringify),
                   [["events"]], "Event Created", "Your event has been created successfully!"))
  }

  /** What a created event puts on the wire: its clock-derived identifier,
      the payload without co-hosts, one `p` tag per co-host and no relay
      hint. */
  lemma CreateEventDraft(user: string, data: EventData, coHosts: Option<seq<string>>, clock: nat,
                         stringify: EventData -> string)
    requires user != ""
    ensures var d := CreateEvent(Some(user), data, coHosts, clock, stringify).value.draft;
      && d.kind == EventKind
      && d.content == stringify(data)
      && Lookup(d.tags, "d") == Some(EventId(clock))
      && PairValues(d.tags, "p") == coHosts.GetOr([])
      && Absent(d.tags, "r")
  {
    var d := CreateEvent(Some(user), data, coHosts, clock, stringify).value.draft;
    LookupAtHead(d.tags, "d", EventId(clock));
  }

  /** A created event, once signed by its author, loads back as entered. */
  lemma CreateThenDecode(user: string, data: EventData, coHosts: Option<seq<string>>, clock: nat, createdAt: int,
                         parse: string -> Option<EventData>, stringify: EventData -> string)
    requires user != ""
    requires parse(stringify(data)) == Some(data)
    ensures var d := CreateEvent(Some(user), data, coHosts, clock, stringify).value.draft;
      EventCodec.Decode(Sign(d, user, createdAt), parse)
        == Some(EventWithMeta(data.(location := EventCodec.RoundTripLocation(data.location)), EventId(clock),
                              user, createdAt, Some(coHosts.GetOr([])), None, None))
  {
    EventCodec.RoundTrip(data, user, EventId(clock), coHosts, None, user, createdAt, parse, stringify);
  }

  /** `useUpdateEvent`: republishes under the caller-supplied identifier.
      Only sign-in is checked; ownership is not. */
  function UpdateEvent(user: Option<string>, data: EventData, id: string, coHosts: Option<seq<string>>,
                       stringify: EventData -> string): (res: Result<Published, Failure>)
    ensures res.Err? <==> !RsvpHooks.SignedIn(user)
    ensures res.Err? ==> res.error == Failure("Event Update Failed", NotLoggedIn)
    ensures res.Ok? ==>
      && res.value.draft == EventCodec.Encode(data, user.value, id, coHosts, None, stringify)
      && res.value.invalidated == UpdateKeys(id)
      && res.value.toastTitle == "Event Updated"
  {
    if !RsvpHooks.SignedIn(user) then Err(Failure("Event Update Failed", NotLoggedIn))
    else
      Ok(Published(EventCodec.Encode(data, user.value, id, coHosts, None, stringify),
                   UpdateKeys(id), "Event Updated", "Your event has been updated successfully!"))
  }

  function UpdateKeys(id: string): seq<QueryKey> {
    [["events"], ["event", id]]
  }

  /** An edit makes every listing and that event's detail query stale, but
      not another event's detail query. */
  lemma UpdateInvalidates(id: string, other: string, listing: string)
    requires other != id
    ensures AnyInvalidates(UpdateKeys(id), ["events", listing])
    ensures AnyInvalidates(UpdateKeys(id), ["event", id])
    ensures !AnyInvalidates(UpdateKeys(id), ["event", other])
  {
    var keys := UpdateKeys(id);
    assert Invalidates(keys[0], ["events", listing]);
    assert Invalidates(keys[1], ["event", id]);
    forall i | 0 <= i < |keys|
      ensures !Invalidates(keys[i], ["event", other])
    {
      assert keys[i][0] == "events" || keys[i][1] == id;
    }
  }

  /** Editing an event its author created republishes it in the same
      addressable slot: same kind and same `d` tag, so the relay replaces the
      old version. */
  lemma EditKeepsSlot(user: string, data: EventData, edited: EventData, coHosts: Option<seq<string>>,
                      newCoHosts: Option<seq<string>>, clock: nat, stringify: EventData -> string)
    requires user != ""
    ensures var created := CreateEvent(Some(user), data, coHosts, clock, stringify).value.draft;
            var updated := UpdateEvent(Some(user), edited, EventId(clock), newCoHosts, stringify).value.draft;
            created.kind == updated.kind && Lookup(created.tags, "d") == Lookup(updated.tags, "d")
  {
    var created := CreateEvent(Some(user), data, coHosts, clock, stringify).value.draft;
    var updated := UpdateEvent(Some(user), edited, EventId(clock), newCoHosts, stringify).value.draft;
    LookupAtHead(created.tags, "d", EventId(clock));
    LookupAtHead(updated.tags, "d", EventId(clock));
  }

  /** The toast title after posting an update. */
  function UpdateTitle(t: UpdateType): (title: string)
    ensures t == Cancellation <==> title == "Event Cancelled"
    ensures t == Change <==> title == "Event Change Posted"
    ensures t == Announcement <==> title == "Update Posted"
  {
    match t
    case Cancellation => "Event Cancelled"
    case Change => "Event Change Posted"
    case Announcement => "Update Posted"
  }

  const NotCreator := "Only the event creator can post updates"

  /** `useCreateEventUpdate`: only the signed-in creator may post; the type
      defaults to an announcement. */
  function PostUpdate(user: Option<string>, content: string, eventId: string, creatorId: string,
                      t: Option<UpdateType>, clock: nat): (res: Result<Published, Failure>)
    ensures res.Ok? <==> RsvpHooks.SignedIn(user) && user.value == creatorId
    ensures !RsvpHooks.SignedIn(user) ==> res == Err(Failure("Update Failed", NotLoggedIn))
    ensures RsvpHooks.SignedIn(user) && user.value != creatorId ==> res == Err(Failure("Update Failed", NotCreator))
    ensures res.Ok? ==>
      && res.value.draft == UpdateCodec.Encode(content, eventId, creatorId, t.GetOr(Announcement), clock)
      && res.value.invalidated == [["event-updates", eventId]]
      && res.value.toastTitle == UpdateTitle(t.GetOr(Announcement))
  {
    if !RsvpHooks.SignedIn(user) then Err(Failure("Update Failed", NotLoggedIn))
    else if user.value != creatorId then Err(Failure("Update Failed", NotCreator))
    else
      var kind := t.GetOr(Announcement);
      Ok(Published(UpdateCodec.Encode(content, eventId, creatorId, kind, clock),
                   [["event-updates", eventId]], UpdateTitle(kind),
                   "Your update has been posted successfully!"))
  }

  /** A posted note, signed by the creator, decodes as an update of the
      event by the creator, carrying the chosen type. */
  lemma PostThenDecode(user: string, content: string, eventId: string, t: Option<UpdateType>, clock: nat,
                       createdAt: int)
    requires user != "" && eventId != ""
    ensures var d := PostUpdate(Some(user), content, eventId, user, t, clock).value.draft;
      UpdateCodec.Decode(Sign(d, user, createdAt))
        == Some(EventUpdate(UpdateCodec.UpdateId(clock), eventId, user, content,
                            UpdateTypeName(t.GetOr(Announcement)), createdAt))
  {
    UpdateCodec.RoundTrip(content, eventId, user, t.GetOr(Announcement), clock, user, createdAt);
  }
}
