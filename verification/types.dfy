/** The record shapes of the application (lib/nostr/types.ts). Optional
    fields (`field?: T`) are `Option`s; a JavaScript number that the source
    only ever holds as a whole number is an `int`, a coordinate is a `real`. */
module Types {
  import opened Wrappers

  datatype Location = Location(
    name: Option<string>,
    address: Option<string>,
    latitude: Option<real>,
    longitude: Option<real>)

  /** The record an organiser fills in; `title`, `description` and
      `startDate` are the only required fields. */
  datatype EventData = EventData(
    title: string,
    description: string,
    startDate: string,
    endDate: Option<string>,
    location: Option<Location>,
    virtual: Option<bool>,
    virtualUrl: Option<string>,
    image: Option<string>,
    tags: Option<seq<string>>,
    cost: Option<string>,
    capacity: Option<int>,
    requirements: Option<string>,
    contact: Option<string>)

  datatype RsvpStatus = Yes | No | Maybe

  function StatusName(s: RsvpStatus): string {
    match s
    case Yes => "yes"
    case No => "no"
    case Maybe => "maybe"
  }

  /** `['yes', 'no', 'maybe'].includes(x)`, returning the status it names. */
  function ParseStatus(x: string): (r: Option<RsvpStatus>)
    ensures r.Some? <==> x == "yes" || x == "no" || x == "maybe"
    ensures r.Some? ==> StatusName(r.value) == x
    ensures forall s :: x == StatusName(s) ==> r == Some(s)
  {
    if x == "yes" then Some(Yes)
    else if x == "no" then Some(No)
    else if x == "maybe" then Some(Maybe)
    else None
  }

  datatype Rsvp = Rsvp(status: RsvpStatus, comment: Option<string>, attendees: Option<int>)

  datatype UpdateType = Announcement | Change | Cancellation

  function UpdateTypeName(t: UpdateType): string {
    match t
    case Announcement => "announcement"
    case Change => "change"
    case Cancellation => "cancellation"
  }

  /** The update kind a type string names, if it is one of the three. */
  function ParseUpdateType(x: string): (r: Option<UpdateType>)
    ensures r.Some? <==> x == "announcement" || x == "change" || x == "cancellation"
    ensures r.Some? ==> UpdateTypeName(r.value) == x
    ensures forall t :: x == UpdateTypeName(t) ==> r == Some(t)
  {
    if x == "announcement" then Some(Announcement)
    else if x == "change" then Some(Change)
    else if x == "cancellation" then Some(Cancellation)
    else None
  }

  /** A decoded update. Its `updateType` is the string found on the wire:
      the decoder does not check it against the three declared types. */
  datatype EventUpdate = EventUpdate(
    id: string,
    eventId: string,
    creatorId: string,
    content: string,
    updateType: string,
    createdAt: int)

  datatype RsvpCounts = RsvpCounts(yes: int, no: int, maybe: int)

  /** A decoded event: the organiser's record plus its `d`-tag identifier,
      its author and its creation time. */
  datatype EventWithMeta = EventWithMeta(
    data: EventData,
    id: string,
    pubkey: string,
    createdAt: int,
    coHosts: Option<seq<string>>,
    relayHint: Option<string>,
    rsvpCount: Option<RsvpCounts>)

  /** JavaScript truthiness of an optional string. */
  predicate Truthy(o: Option<string>) {
    o.Some? && o.value != ""
  }

  /** `s || undefined`. */
  function NonEmpty(s: string): (r: Option<string>)
    ensures Truthy(r) <==> s != ""
    ensures r.Some? ==> r.value == s
    ensures r.None? <==> s == ""
  {
    if s == "" then None else Some(s)
  }

  /** JavaScript truthiness of an optional number (`0` is falsy). */
  predicate TruthyNumber(o: Option<real>) {
    o.Some? && o.value != 0.0
  }
}
