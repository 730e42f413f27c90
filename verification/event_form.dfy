/** The event editor (components/events/EventForm.tsx): editing the topic
    list, and submitting the form, which checks sign-in and the required
    fields, uploads a chosen image, normalises the fields into an event
    record and hands it to the create or the update mutation.

    The date pickers hold instants (`Date`), modelled as integers;
    `formatDateWithTime`, `parseFloat`, `parseInt` and the upload service
    are parameters. */
module EventForm {
  import opened Wrappers
  import opened Text
  import opened Types
  import opened Seqs
  import opened Wire
  import EventCodec
  import EventActions

  // ------------------------------------------------------------ topic list

  /** The topic list and the text in the tag input. */
  datatype TagEditor = TagEditor(tags: seq<string>, input: string)

  /** `handleAddTag`: adds the trimmed input unless it is blank or already
      listed; only an addition clears the input. */
  function AddTag(s: TagEditor): (r: TagEditor)
    ensures Trim(s.input) == "" || Trim(s.input) in s.tags ==> r == s
    ensures Trim(s.input) != "" && Trim(s.input) !in s.tags ==>
      r.tags == s.tags + [Trim(s.input)] && r.input == ""
  {
    var t := Trim(s.input);
    if t != "" && t !in s.tags then TagEditor(s.tags + [t], "") else s
  }

  /** `handleRemoveTag`: drops every copy of the tag, keeping the rest in
      order. */
  function RemoveTag(s: TagEditor, tag: string): (r: TagEditor)
    ensures r.input == s.input
    ensures Subsequence(r.tags, s.tags)
    ensures forall t :: t in r.tags <==> t in s.tags && t != tag
  {
    TagEditor(Seqs.Filter(s.tags, (t: string) => t != tag), s.input)
  }

  /** What the user can do to the topic list. */
  datatype TagAction = Type(text: string) | AddClick | RemoveClick(tag: string)

  function Step(s: TagEditor, a: TagAction): TagEditor {
    match a
    case Type(text) => s.(input := text)
    case AddClick => AddTag(s)
    case RemoveClick(tag) => RemoveTag(s, tag)
  }

  function Run(s: TagEditor, actions: seq<TagAction>): TagEditor
    decreases |actions|
  {
    if |actions| == 0 then s else Run(Step(s, actions[0]), actions[1..])
  }

  /** One step keeps the topic list free of repeats. */
  lemma StepNoDuplicates(s: TagEditor, a: TagAction)
    requires NoDuplicates(s.tags)
    ensures NoDuplicates(Step(s, a).tags)
  {
    match a
    case Type(_) =>
    case AddClick =>
    case RemoveClick(tag) =>
      FilterNoDuplicates(s.tags, (t: string) => t != tag);
  }

  /** A topic list that starts without repeats never gets one, whatever the
      user types, adds or removes. */
  lemma {:induction false} RunNoDuplicates(s: TagEditor, actions: seq<TagAction>)
    requires NoDuplicates(s.tags)
    ensures NoDuplicates(Run(s, actions).tags)
    decreases |actions|
  {
    if |actions| > 0 {
      StepNoDuplicates(s, actions[0]);
      RunNoDuplicates(Step(s, actions[0]), actions[1..]);
    }
  }

  // ----------------------------------------------------------------- submit

  /** The form's state when it is submitted; `imageFile` names a chosen
      file. */
  datatype FormState = FormState(
    title: string,
    description: string,
    startDate: Option<int>,
    startTime: string,
    endDate: Option<int>,
    endTime: string,
    locationName: string,
    locationAddress: string,
    latitude: string,
    longitude: string,
    isVirtual: bool,
    virtualUrl: string,
    imageUrl: string,
    imageFile: Option<string>,
    tags: seq<string>,
    cost: string,
    capacity: string,
    requirements: string,
    contact: string)

  /** What a submission does: an alert and nothing else, or a call of one of
      the two mutations. */
  datatype SubmitOutcome =
    | AbortNotLoggedIn
    | AbortMissingFields
    | SaveFailed
    | CallCreate(data: EventData)
    | CallUpdate(data: EventData, id: string, coHosts: Option<seq<string>>)

  function AlertText(o: SubmitOutcome): Option<string> {
    match o
    case AbortNotLoggedIn => Some("You must be logged in to create an event")
    case AbortMissingFields => Some("Please fill out all required fields")
    case SaveFailed => Some("Failed to save event")
    case _ => None
  }

  /** `!title || !description || !startDate || !startTime`. */
  predicate MissingRequired(f: FormState) {
    f.title == "" || f.description == "" || f.startDate.None? || f.startTime == ""
  }

  /** `x ? parse(x) : undefined` for a numeric text field. */
  function ParsedField<T>(text: string, parse: string -> T): Option<T> {
    if text != "" then Some(parse(text)) else None
  }

  /** The `eventData` record built from a complete form. */
  function Normalise(f: FormState, image: string, format: (int, string) -> string,
                     parseFloat: string -> real, parseInt: string -> int): (d: EventData)
    requires f.startDate.Some?
  {
    EventData(
      f.title,
      f.description,
      format(f.startDate.value, f.startTime),
      if f.endDate.Some? then Some(format(f.endDate.value, if f.endTime != "" then f.endTime else "23:59")) else None,
      Some(Location(NonEmpty(f.locationName), NonEmpty(f.locationAddress),
                    ParsedField(f.latitude, parseFloat), ParsedField(f.longitude, parseFloat))),
      Some(f.isVirtual),
      if f.isVirtual then Some(f.virtualUrl) else None,
      NonEmpty(image),
      if |f.tags| > 0 then Some(f.tags) else None,
      NonEmpty(f.cost),
      ParsedField(f.capacity, parseInt),
      NonEmpty(f.requirements),
      NonEmpty(f.contact))
  }

  /** No optional text of the record is ever the empty string, except the
      meeting link, which is kept as typed whenever the event is virtual. */
  predicate NoEmptyOptionals(d: EventData) {
    d.image != Some("") && d.cost != Some("") && d.requirements != Some("") && d.contact != Some("")
    && d.tags != Some([])
    && (d.location.Some? ==> d.location.value.name != Some("") && d.location.value.address != Some(""))
  }

  /** The normalisation rules: empty texts and an empty topic list are
      dropped, the link is kept exactly when the event is virtual, and an end
      date without a time ends at 23:59. */
  lemma NormaliseRules(f: FormState, image: string, format: (int, string) -> string,
                       parseFloat: string -> real, parseInt: string -> int)
    requires f.startDate.Some?
    ensures var d := Normalise(f, image, format, parseFloat, parseInt);
      && NoEmptyOptionals(d)
      && d.title == f.title && d.description == f.description
      && (d.tags.Some? <==> |f.tags| > 0)
      && (d.tags.Some? ==> d.tags.value == f.tags)
      && (d.virtualUrl.Some? <==> f.isVirtual)
      && (d.endDate.Some? <==> f.endDate.Some?)
      && (f.endDate.Some? && f.endTime == "" ==> d.endDate == Some(format(f.endDate.value, "23:59")))
      && (Truthy(d.image) <==> image != "")
      && (d.capacity.Some? <==> f.capacity != "")
  {
  }

  /** `handleSubmit`. `upload` gives the URL of an uploaded file, or nothing
      when the upload fails. */
  function Submit(f: FormState, user: Option<string>, existing: Option<EventWithMeta>,
                  upload: string -> Option<string>, format: (int, string) -> string,
                  parseFloat: string -> real, parseInt: string -> int): (o: SubmitOutcome)
    ensures o == AbortNotLoggedIn <==> user.None?
    ensures o == AbortMissingFields <==> user.Some? && MissingRequired(f)
    ensures o == SaveFailed <==> user.Some? && !MissingRequired(f) && f.imageFile.Some? && upload(f.imageFile.value).None?
    ensures o.CallUpdate? <==> o !in {AbortNotLoggedIn, AbortMissingFields, SaveFailed} && existing.Some?
    ensures o.CallCreate? <==> o !in {AbortNotLoggedIn, AbortMissingFields, SaveFailed} && existing.None?
    ensures o.CallUpdate? ==> o.id == existing.value.id && o.coHosts == existing.value.coHosts
    ensures o.CallCreate? || o.CallUpdate? ==>
      o.data == Normalise(f, if f.imageFile.Some? then upload(f.imageFile.value).value else f.imageUrl,
                          format, parseFloat, parseInt)
  {
    if user.None? then AbortNotLoggedIn
    else if MissingRequired(f) then AbortMissingFields
    else if f.imageFile.Some? && upload(f.imageFile.value).None? then SaveFailed
    else
      var image := if f.imageFile.Some? then upload(f.imageFile.value).value else f.imageUrl;
      var data := Normalise(f, image, format, parseFloat, parseInt);
      if existing.Some? then CallUpdate(data, existing.value.id, existing.value.coHosts)
      else CallCreate(data)
  }

  /** Saving an edited event republishes it under its own identifier with
      its co-hosts, in the same slot the relay already holds. */
  lemma EditRepublishes(f: FormState, user: string, existing: EventWithMeta,
                        upload: string -> Option<string>, format: (int, string) -> string,
                        parseFloat: string -> real, parseInt: string -> int, stringify: EventData -> string)
    requires user != "" && existing.id != ""
    requires Submit(f, Some(user), Some(existing), upload, format, parseFloat, parseInt).CallUpdate?
    ensures var o := Submit(f, Some(user), Some(existing), upload, format, parseFloat, parseInt);
            var d := EventActions.UpdateEvent(Some(user), o.data, o.id, o.coHosts, stringify).value.draft;
            Lookup(d.tags, "d") == Some(existing.id) && PairValues(d.tags, "p") == existing.coHosts.GetOr([])
  {
    var o := Submit(f, Some(user), Some(existing), upload, format, parseFloat, parseInt);
    var d := EventActions.UpdateEvent(Some(user), o.data, o.id, o.coHosts, stringify).value.draft;
    LookupAtHead(d.tags, "d", existing.id);
  }
}
