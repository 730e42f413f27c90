/** Encoding and decoding of kind-31000 calendar events
    (`parseNostrEvent`, `createNostrEventObject` in lib/nostr/eventUtils.ts).
    The JSON payload is reached only through `parse`/`stringify`, which the
    caller supplies. */
module EventCodec {
  import opened Wrappers
  import opened Types
  import opened Wire

  /** A field read "tag first, payload second": the first tag called `name`
      supplies the value when its value is non-empty, and otherwise the
      payload's `fallback` is used. */
  ghost predicate TagOrPayload(tags: seq<Tag>, name: string, got: string, fallback: string) {
    || (exists i :: IsFirst(tags, name, i) && Second(tags[i]) != "" && got == Second(tags[i]))
    || ((forall i :: IsFirst(tags, name, i) ==> Second(tags[i]) == "") && got == fallback)
  }

  ghost predicate OptionalTagOrPayload(tags: seq<Tag>, name: string, got: Option<string>, fallback: Option<string>) {
    || (exists i :: IsFirst(tags, name, i) && Second(tags[i]) != "" && got == Some(Second(tags[i])))
    || ((forall i :: IsFirst(tags, name, i) ==> Second(tags[i]) == "") && got == fallback)
  }

  function OptionalOrElse(value: Option<string>, fallback: Option<string>): Option<string> {
    if value.Some? then value else fallback
  }

  /** A non-empty `location` tag replaces the whole payload location by one
      holding only the name. */
  function DecodedLocation(tagName: Option<string>, payload: Option<Location>): Option<Location> {
    if tagName.Some? then Some(Location(tagName, None, None, None)) else payload
  }

  /** `parseNostrEvent`: `None` when the payload does not parse or the first
      `d` tag has no value. */
  function Decode(w: WireEvent, parse: string -> Option<EventData>): (r: Option<EventWithMeta>)
    ensures parse(w.content).None? ==> r.None?
    ensures r.None? <==> parse(w.content).None? || !(exists i :: IsFirst(w.tags, "d", i) && Second(w.tags[i]) != "")
  {
    match parse(w.content)
    case None => None
    case Some(p) =>
      match Lookup(w.tags, "d")
      case None => None
      case Some(id) => Some(Assemble(w, p, id))
  }

  /** The decoded record once the payload has parsed and `id` was found. */
  function Assemble(w: WireEvent, p: EventData, id: string): EventWithMeta {
    var categories := Values(w.tags, "t");
    var data := p.(
      title := OrElse(Lookup(w.tags, "subject"), p.title),
      startDate := OrElse(Lookup(w.tags, "start"), p.startDate),
      endDate := OptionalOrElse(Lookup(w.tags, "end"), p.endDate),
      image := OptionalOrElse(Lookup(w.tags, "image"), p.image),
      tags := if |categories| > 0 then Some(categories) else p.tags,
      location := DecodedLocation(Lookup(w.tags, "location"), p.location));
    EventWithMeta(data, id, w.pubkey, w.createdAt, Some(PairValues(w.tags, "p")), Lookup(w.tags, "r"), None)
  }

  /** How each field of a decoded event is found: the identifier from the
      first `d` tag; title, start, end and image from the first tag of their
      name when its value is non-empty and from the payload otherwise; the
      description from the payload; co-hosts from every `p` pair. */
  lemma DecodeFields(w: WireEvent, parse: string -> Option<EventData>)
    requires Decode(w, parse).Some?
    ensures var r := Decode(w, parse).value;
      var p := parse(w.content).value;
      && (exists i :: IsFirst(w.tags, "d", i) && r.id == Second(w.tags[i]))
      && r.pubkey == w.pubkey && r.createdAt == w.createdAt
      && TagOrPayload(w.tags, "subject", r.data.title, p.title)
      && TagOrPayload(w.tags, "start", r.data.startDate, p.startDate)
      && OptionalTagOrPayload(w.tags, "end", r.data.endDate, p.endDate)
      && OptionalTagOrPayload(w.tags, "image", r.data.image, p.image)
      && r.data.description == p.description
      && r.coHosts == Some(PairValues(w.tags, "p"))
      && r.rsvpCount.None?
  {
  }

  /** Category tags: every `t` value in tag order when there is at least one
      `t` tag, the payload's list otherwise; the relay hint is the first
      non-empty `r` value; a non-empty `location` tag replaces the payload
      location by `{name}`, and without one (no `location` tag, or a first
      one whose value is empty or missing) the payload location is kept. */
  lemma DecodeCollections(w: WireEvent, parse: string -> Option<EventData>)
    requires Decode(w, parse).Some?
    ensures var r := Decode(w, parse).value;
      var p := parse(w.content).value;
      && (Absent(w.tags, "t") ==> r.data.tags == p.tags)
      && (!Absent(w.tags, "t") ==> r.data.tags == Some(Values(w.tags, "t")) && |Values(w.tags, "t")| > 0)
      && r.relayHint == Lookup(w.tags, "r")
      && (Lookup(w.tags, "location").Some? ==>
            r.data.location == Some(Location(Lookup(w.tags, "location"), None, None, None)))
      && (Lookup(w.tags, "location").None? ==> r.data.location == p.location)
  {
    ValuesNonEmpty(w.tags, "t");
  }

  /** `[name, v]` when `v` is truthy, nothing otherwise. */
  function OptionalTag(name: string, v: Option<string>): (r: seq<Tag>)
    ensures Absent(r, name) <==> !Truthy(v)
  {
    if Truthy(v) then
      assert Named(([[name, v.value]])[0], name);
      [[name, v.value]]
    else []
  }

  function LocationName(loc: Option<Location>): Option<string> {
    if loc.Some? then loc.value.name else None
  }

  /** The tag list `createNostrEventObject` emits, in order. */
  function EventTags(d: EventData, id: string, coHosts: seq<string>, relayHint: Option<string>): seq<Tag> {
    [["d", id], ["subject", d.title], ["start", d.startDate]]
    + (OptionalTag("end", d.endDate)
    + (OptionalTag("location", LocationName(d.location))
    + (OptionalTag("image", d.image)
    + (Repeat("t", d.tags.GetOr([]))
    + (Repeat("p", coHosts)
    + OptionalTag("r", relayHint))))))
  }

  /** `createNostrEventObject`. The author's key is not used: the publish
      client signs the draft. */
  function Encode(d: EventData, pubkey: string, id: string, coHosts: Option<seq<string>>,
                  relayHint: Option<string>, stringify: EventData -> string): (r: Draft)
    ensures r.kind == EventKind && r.content == stringify(d)
    ensures |r.tags| >= 3 && r.tags[0] == ["d", id] && r.tags[1] == ["subject", d.title]
            && r.tags[2] == ["start", d.startDate]
    ensures Values(r.tags, "t") == d.tags.GetOr([])
    ensures PairValues(r.tags, "p") == coHosts.GetOr([])
    ensures Absent(r.tags, "end") <==> !Truthy(d.endDate)
    ensures Absent(r.tags, "location") <==> !Truthy(LocationName(d.location))
    ensures Absent(r.tags, "image") <==> !Truthy(d.image)
    ensures Absent(r.tags, "r") <==> !Truthy(relayHint)
  {
    var tags := EventTags(d, id, coHosts.GetOr([]), relayHint);
    EncodeFacts(d, id, coHosts.GetOr([]), relayHint);
    Draft(EventKind, tags, stringify(d))
  }

  lemma EncodeFacts(d: EventData, id: string, cs: seq<string>, hint: Option<string>)
    ensures var tags := EventTags(d, id, cs, hint);
      && Values(tags, "t") == d.tags.GetOr([])
      && PairValues(tags, "p") == cs
      && (Absent(tags, "end") <==> !Truthy(d.endDate))
      && (Absent(tags, "location") <==> !Truthy(LocationName(d.location)))
      && (Absent(tags, "image") <==> !Truthy(d.image))
      && (Absent(tags, "r") <==> !Truthy(hint))
  {
    EncodeValues(d, id, cs, hint);
    EncodeAbsentDated(d, id, cs, hint);
    EncodeAbsentLinked(d, id, cs, hint);
  }

  lemma EncodeAbsentDated(d: EventData, id: string, cs: seq<string>, hint: Option<string>)
    ensures var tags := EventTags(d, id, cs, hint);
      && (Absent(tags, "end") <==> !Truthy(d.endDate))
      && (Absent(tags, "location") <==> !Truthy(LocationName(d.location)))
  {
    EncodeAbsent(d, id, cs, hint, "end");
    EncodeAbsent(d, id, cs, hint, "location");
  }

  lemma EncodeAbsentLinked(d: EventData, id: string, cs: seq<string>, hint: Option<string>)
    ensures var tags := EventTags(d, id, cs, hint);
      && (Absent(tags, "image") <==> !Truthy(d.image))
      && (Absent(tags, "r") <==> !Truthy(hint))
  {
    EncodeAbsent(d, id, cs, hint, "image");
    EncodeAbsent(d, id, cs, hint, "r");
  }

  lemma EncodeValues(d: EventData, id: string, cs: seq<string>, hint: Option<string>)
    ensures Values(EventTags(d, id, cs, hint), "t") == d.tags.GetOr([])
    ensures PairValues(EventTags(d, id, cs, hint), "p") == cs
  {
    EncodeSectionValues(d, id, cs, hint, "t");
    EncodeSectionValues(d, id, cs, hint, "p");
    ValuesOfRepeat("t", d.tags.GetOr([]));
    ValuesOfRepeat("p", cs);
    AbsentFromRepeat("t", d.tags.GetOr([]), "p");
    AbsentFromRepeat("p", cs, "t");
  }

  /** Only the category and co-host sections contribute values for a name
      that no single tag uses. */
  lemma EncodeSectionValues(d: EventData, id: string, cs: seq<string>, hint: Option<string>, name: string)
    requires name == "t" || name == "p"
    ensures Values(EventTags(d, id, cs, hint), name)
      == Values(Repeat("t", d.tags.GetOr([])), name) + Values(Repeat("p", cs), name)
    ensures PairValues(EventTags(d, id, cs, hint), name)
      == PairValues(Repeat("t", d.tags.GetOr([])), name) + PairValues(Repeat("p", cs), name)
  {
    var base: seq<Tag> := [["d", id], ["subject", d.title], ["start", d.startDate]];
    var e, l, m := OptionalTag("end", d.endDate), OptionalTag("location", LocationName(d.location)), OptionalTag("image", d.image);
    var ts, ps, r := Repeat("t", d.tags.GetOr([])), Repeat("p", cs), OptionalTag("r", hint);
    var pre := base + (e + (l + m));
    assert EventTags(d, id, cs, hint) == pre + (ts + (ps + r));
    HeadSectionsAbsent(d, id, name);
    SectionValues(pre, ts, ps, r, name);
  }

  /** No tag before the category section or after the co-host section is
      named `t` or `p`. */
  lemma HeadSectionsAbsent(d: EventData, id: string, name: string)
    requires name == "t" || name == "p"
    ensures Absent([["d", id], ["subject", d.title], ["start", d.startDate]]
                   + (OptionalTag("end", d.endDate) + (OptionalTag("location", LocationName(d.location)) + OptionalTag("image", d.image))), name)
    ensures forall hint :: Absent(OptionalTag("r", hint), name)
  {
    var base: seq<Tag> := [["d", id], ["subject", d.title], ["start", d.startDate]];
    var e, l, m := OptionalTag("end", d.endDate), OptionalTag("location", LocationName(d.location)), OptionalTag("image", d.image);
    AbsentAppend(l, m, name);
    AbsentAppend(e, l + m, name);
    AbsentAppend(base, e + (l + m), name);
  }

  lemma SectionValues(pre: seq<Tag>, ts: seq<Tag>, ps: seq<Tag>, r: seq<Tag>, name: string)
    requires Absent(pre, name) && Absent(r, name)
    ensures Values(pre + (ts + (ps + r)), name) == Values(ts, name) + Values(ps, name)
    ensures PairValues(pre + (ts + (ps + r)), name) == PairValues(ts, name) + PairValues(ps, name)
  {
    SectionSingleValues(pre, ts, ps, r, name);
    SectionPairValues(pre, ts, ps, r, name);
  }

  lemma SectionSingleValues(pre: seq<Tag>, ts: seq<Tag>, ps: seq<Tag>, r: seq<Tag>, name: string)
    requires Absent(pre, name) && Absent(r, name)
    ensures Values(pre + (ts + (ps + r)), name) == Values(ts, name) + Values(ps, name)
  {
    ValuesAppend(ps, r, name);
    ValuesAppend(ts, ps + r, name);
    ValuesAppend(pre, ts + (ps + r), name);
  }

  lemma SectionPairValues(pre: seq<Tag>, ts: seq<Tag>, ps: seq<Tag>, r: seq<Tag>, name: string)
    requires Absent(pre, name) && Absent(r, name)
    ensures PairValues(pre + (ts + (ps + r)), name) == PairValues(ts, name) + PairValues(ps, name)
  {
    PairValuesAppend(ps, r, name);
    PairValuesAppend(ts, ps + r, name);
    PairValuesAppend(pre, ts + (ps + r), name);
  }

  lemma EncodeAbsent(d: EventData, id: string, cs: seq<string>, hint: Option<string>, name: string)
    requires name == "end" || name == "location" || name == "image" || name == "r"
    ensures Absent(EventTags(d, id, cs, hint), name) <==>
      && Absent(OptionalTag("end", d.endDate), name)
      && Absent(OptionalTag("location", LocationName(d.location)), name)
      && Absent(OptionalTag("image", d.image), name)
      && Absent(OptionalTag("r", hint), name)
  {
    var base: seq<Tag> := [["d", id], ["subject", d.title], ["start", d.startDate]];
    var e, l, m := OptionalTag("end", d.endDate), OptionalTag("location", LocationName(d.location)), OptionalTag("image", d.image);
    var ts, ps, r := Repeat("t", d.tags.GetOr([])), Repeat("p", cs), OptionalTag("r", hint);
    AbsentFromRepeat("t", d.tags.GetOr([]), name);
    AbsentFromRepeat("p", cs, name);
    AbsentAppend(ps, r, name);
    AbsentAppend(ts, ps + r, name);
    AbsentAppend(m, ts + (ps + r), name);
    AbsentAppend(l, m + (ts + (ps + r)), name);
    AbsentAppend(e, l + (m + (ts + (ps + r))), name);
    AbsentAppend(base, e + (l + (m + (ts + (ps + r)))), name);
  }

  /** The location a decoder sees after an encode: the name alone when the
      name is non-empty, the full payload location otherwise. */
  function RoundTripLocation(loc: Option<Location>): Option<Location> {
    if Truthy(LocationName(loc)) then Some(Location(LocationName(loc), None, None, None)) else loc
  }

  /** Relay hint as decoded: kept when non-empty. */
  function RoundTripHint(hint: Option<string>): Option<string> {
    if Truthy(hint) then hint else None
  }

  lemma OnlyAsSections(base: seq<Tag>, e: seq<Tag>, l: seq<Tag>, m: seq<Tag>, ts: seq<Tag>,
                       ps: seq<Tag>, r: seq<Tag>, name: string, v: string)
    requires OnlyAs(base, name, v) && OnlyAs(e, name, v) && OnlyAs(l, name, v) && OnlyAs(m, name, v)
    requires OnlyAs(ts, name, v) && OnlyAs(ps, name, v) && OnlyAs(r, name, v)
    ensures OnlyAs(base + (e + (l + (m + (ts + (ps + r))))), name, v)
  {
  }

  lemma RepeatNamed(name: string, vs: seq<string>)
    ensures forall t :: t in Repeat(name, vs) ==> Named(t, name)
  {
    forall t | t in Repeat(name, vs)
      ensures Named(t, name)
    {
      var i :| 0 <= i < |vs| && Repeat(name, vs)[i] == t;
    }
  }

  /** Every tag `EventTags` emits under one of its single-valued names
      carries the same value. */
  lemma SingleTagValues(d: EventData, id: string, cs: seq<string>, hint: Option<string>)
    ensures var tags := EventTags(d, id, cs, hint);
      && OnlyAs(tags, "d", id)
      && OnlyAs(tags, "subject", d.title)
      && OnlyAs(tags, "start", d.startDate)
      && OnlyAs(tags, "end", d.endDate.GetOr(""))
      && OnlyAs(tags, "location", LocationName(d.location).GetOr(""))
      && OnlyAs(tags, "image", d.image.GetOr(""))
      && OnlyAs(tags, "r", hint.GetOr(""))
  {
    RepeatNamed("t", d.tags.GetOr([]));
    RepeatNamed("p", cs);
    FixedTagValues(d, id, cs, hint);
    OptionalTagValues(d, id, cs, hint);
  }

  /** The three single-valued names every event carries. */
  lemma FixedTagValues(d: EventData, id: string, cs: seq<string>, hint: Option<string>)
    requires forall t :: t in Repeat("t", d.tags.GetOr([])) ==> Named(t, "t")
    requires forall t :: t in Repeat("p", cs) ==> Named(t, "p")
    ensures var tags := EventTags(d, id, cs, hint);
      && OnlyAs(tags, "d", id)
      && OnlyAs(tags, "subject", d.title)
      && OnlyAs(tags, "start", d.startDate)
  {
    var base: seq<Tag> := [["d", id], ["subject", d.title], ["start", d.startDate]];
    var e, l, m := OptionalTag("end", d.endDate), OptionalTag("location", LocationName(d.location)), OptionalTag("image", d.image);
    var ts, ps, r := Repeat("t", d.tags.GetOr([])), Repeat("p", cs), OptionalTag("r", hint);
    OnlyAsSections(base, e, l, m, ts, ps, r, "d", id);
    OnlyAsSections(base, e, l, m, ts, ps, r, "subject", d.title);
    OnlyAsSections(base, e, l, m, ts, ps, r, "start", d.startDate);
  }

  /** The four single-valued names an event carries only when set. */
  lemma OptionalTagValues(d: EventData, id: string, cs: seq<string>, hint: Option<string>)
    requires forall t :: t in Repeat("t", d.tags.GetOr([])) ==> Named(t, "t")
    requires forall t :: t in Repeat("p", cs) ==> Named(t, "p")
    ensures var tags := EventTags(d, id, cs, hint);
      && OnlyAs(tags, "end", d.endDate.GetOr(""))
      && OnlyAs(tags, "location", LocationName(d.location).GetOr(""))
      && OnlyAs(tags, "image", d.image.GetOr(""))
      && OnlyAs(tags, "r", hint.GetOr(""))
  {
    var base: seq<Tag> := [["d", id], ["subject", d.title], ["start", d.startDate]];
    var e, l, m := OptionalTag("end", d.endDate), OptionalTag("location", LocationName(d.location)), OptionalTag("image", d.image);
    var ts, ps, r := Repeat("t", d.tags.GetOr([])), Repeat("p", cs), OptionalTag("r", hint);
    OnlyAsSections(base, e, l, m, ts, ps, r, "end", d.endDate.GetOr(""));
    OnlyAsSections(base, e, l, m, ts, ps, r, "location", LocationName(d.location).GetOr(""));
    OnlyAsSections(base, e, l, m, ts, ps, r, "image", d.image.GetOr(""));
    OnlyAsSections(base, e, l, m, ts, ps, r, "r", hint.GetOr(""));
  }

  /** The tag lookups a decoder performs on an encoded event. */
  lemma EncodedLookups(d: EventData, id: string, cs: seq<string>, hint: Option<string>)
    ensures var tags := EventTags(d, id, cs, hint);
      && Lookup(tags, "d") == NonEmpty(id)
      && OrElse(Lookup(tags, "subject"), d.title) == d.title
      && OrElse(Lookup(tags, "start"), d.startDate) == d.startDate
      && OptionalOrElse(Lookup(tags, "end"), d.endDate) == d.endDate
      && OptionalOrElse(Lookup(tags, "image"), d.image) == d.image
      && Lookup(tags, "location") == (if Truthy(LocationName(d.location)) then LocationName(d.location) else None)
      && Lookup(tags, "r") == RoundTripHint(hint)
  {
    var tags := EventTags(d, id, cs, hint);
    SingleTagValues(d, id, cs, hint);
    EncodeFacts(d, id, cs, hint);
    FixedLookups(d, id, cs, hint);
    OptionalLookup(tags, "end", d.endDate);
    OptionalLookup(tags, "image", d.image);
    OptionalLookup(tags, "location", LocationName(d.location));
    OptionalLookup(tags, "r", hint);
  }

  lemma FixedLookups(d: EventData, id: string, cs: seq<string>, hint: Option<string>)
    ensures var tags := EventTags(d, id, cs, hint);
      && Lookup(tags, "d") == NonEmpty(id)
      && OrElse(Lookup(tags, "subject"), d.title) == d.title
      && OrElse(Lookup(tags, "start"), d.startDate) == d.startDate
  {
    var tags := EventTags(d, id, cs, hint);
    SingleTagValues(d, id, cs, hint);
    assert tags[0] == ["d", id] && tags[1] == ["subject", d.title] && tags[2] == ["start", d.startDate];
    assert !Absent(tags, "d") && !Absent(tags, "subject") && !Absent(tags, "start");
    LookupUniform(tags, "d", id);
    LookupUniform(tags, "subject", d.title);
    LookupUniform(tags, "start", d.startDate);
  }

  /** A name whose tags all carry `v.GetOr("")`, present exactly when `v`
      is truthy, looks up to `v` when truthy and to nothing otherwise. */
  lemma OptionalLookup(tags: seq<Tag>, name: string, v: Option<string>)
    requires OnlyAs(tags, name, v.GetOr(""))
    requires Absent(tags, name) <==> !Truthy(v)
    ensures Lookup(tags, name) == (if Truthy(v) then v else None)
    ensures OptionalOrElse(Lookup(tags, name), v) == v
  {
    if Truthy(v) {
      LookupUniform(tags, name, v.GetOr(""));
    } else {
      LookupAbsent(tags, name);
    }
  }

  /** Decoding an encoded event recovers the record, except that a named
      location comes back as its name alone and an empty relay hint is
      dropped; an empty identifier makes the event undecodable. */
  lemma {:induction false} RoundTrip(d: EventData, author: string, id: string, coHosts: Option<seq<string>>,
                                     hint: Option<string>, signer: string, createdAt: int,
                                     parse: string -> Option<EventData>, stringify: EventData -> string)
    requires parse(stringify(d)) == Some(d)
    ensures Decode(Sign(Encode(d, author, id, coHosts, hint, stringify), signer, createdAt), parse)
      == if id == "" then None
         else Some(EventWithMeta(d.(location := RoundTripLocation(d.location)), id, signer, createdAt,
                                 Some(coHosts.GetOr([])), RoundTripHint(hint), None))
  {
    var cs := coHosts.GetOr([]);
    var w := Sign(Encode(d, author, id, coHosts, hint, stringify), signer, createdAt);
    var tags := EventTags(d, id, cs, hint);
    assert w == WireEvent(EventKind, signer, createdAt, tags, stringify(d));
    EncodedLookups(d, id, cs, hint);
    if id != "" {
      AssembleEncoded(d, id, cs, hint, signer, createdAt, stringify(d));
    }
  }

  lemma AssembleEncoded(d: EventData, id: string, cs: seq<string>, hint: Option<string>,
                        signer: string, createdAt: int, content: string)
    ensures Assemble(WireEvent(EventKind, signer, createdAt, EventTags(d, id, cs, hint), content), d, id)
      == EventWithMeta(d.(location := RoundTripLocation(d.location)), id, signer, createdAt,
                       Some(cs), RoundTripHint(hint), None)
  {
    var tags := EventTags(d, id, cs, hint);
    EncodedLookups(d, id, cs, hint);
    EncodeValues(d, id, cs, hint);
    var categories := Values(tags, "t");
    assert (if |categories| > 0 then Some(categories) else d.tags) == d.tags;
  }

  /** The author key passed to the encoder does not influence the draft. */
  lemma EncodeIgnoresAuthor(d: EventData, a1: string, a2: string, id: string, coHosts: Option<seq<string>>,
                            hint: Option<string>, stringify: EventData -> string)
    ensures Encode(d, a1, id, coHosts, hint, stringify) == Encode(d, a2, id, coHosts, hint, stringify)
  {
  }
}
