/** The read hooks for calendar events (hooks/events/useEventQueries.ts):
    one event by its identifier, a filtered listing sorted by start time,
    and the upcoming/past listings split at local midnight. The relay query
    itself is the parameter `results`: the events the relay returned for the
    filter the hook builds. */
module EventQueries {
  import opened Wrappers
  import opened Types
  import opened Wire
  import opened Filters
  import opened Seqs
  import opened Sorting
  import EventCodec

  // ---------------------------------------------------------------- one event

  datatype QueryError = EventNotFound | ParseFailed

  function ErrorMessage(e: QueryError): string {
    match e
    case EventNotFound => "Event not found"
    case ParseFailed => "Failed to parse event data"
  }

  /** `{ kinds: [EVENT_KIND], '#d': [id] }`. */
  function EventByIdFilter(id: string): (f: Filter)
    ensures f.kinds == [EventKind] && f.tagFilters == map["d" := [id]]
    ensures f.authors.None? && f.limit.None?
  {
    TagQuery(EventKind, map["d" := [id]])
  }

  /** The query function of `useEvent`: the first result, decoded. */
  function LoadEvent(results: seq<WireEvent>, parse: string -> Option<EventData>): (r: Result<EventWithMeta, QueryError>)
    ensures |results| == 0 <==> r == Err(EventNotFound)
    ensures r == Err(ParseFailed) <==> |results| > 0 && EventCodec.Decode(results[0], parse).None?
    ensures r.Ok? ==> |results| > 0 && EventCodec.Decode(results[0], parse) == Some(r.value)
  {
    if |results| == 0 then Err(EventNotFound)
    else
      match EventCodec.Decode(results[0], parse)
      case None => Err(ParseFailed)
      case Some(e) => Ok(e)
  }

  /** Only the first result counts: what follows it never changes the outcome. */
  lemma LoadEventFirstOnly(w: WireEvent, rest1: seq<WireEvent>, rest2: seq<WireEvent>,
                           parse: string -> Option<EventData>)
    ensures LoadEvent([w] + rest1, parse) == LoadEvent([w] + rest2, parse)
  {
    assert ([w] + rest1)[0] == w == ([w] + rest2)[0];
  }

  /** An event published by `CreateEvent`'s encoder loads back as the record
      the organiser entered, with the author the relay reports. */
  lemma LoadPublished(d: EventData, id: string, coHosts: Option<seq<string>>, hint: Option<string>,
                      signer: string, createdAt: int, rest: seq<WireEvent>,
                      parse: string -> Option<EventData>, stringify: EventData -> string)
    requires parse(stringify(d)) == Some(d)
    requires id != ""
    ensures LoadEvent([Sign(EventCodec.Encode(d, signer, id, coHosts, hint, stringify), signer, createdAt)] + rest, parse)
            == Ok(EventWithMeta(d.(location := EventCodec.RoundTripLocation(d.location)), id, signer, createdAt,
                                Some(coHosts.GetOr([])), EventCodec.RoundTripHint(hint), None))
  {
    var w := Sign(EventCodec.Encode(d, signer, id, coHosts, hint, stringify), signer, createdAt);
    EventCodec.RoundTrip(d, signer, id, coHosts, hint, signer, createdAt, parse, stringify);
    assert ([w] + rest)[0] == w;
  }

  // ----------------------------------------------------------------- listings

  /** The options object of `useEvents`; `since`/`until` are Unix seconds. */
  datatype ListOptions = ListOptions(
    limit: Option<int>,
    since: Option<int>,
    until: Option<int>,
    authors: Option<seq<string>>,
    tags: Option<map<string, seq<string>>>)

  /** A JavaScript number in an `if (x)` test: present and non-zero. */
  predicate Set(x: Option<int>) {
    x.Some? && x.value != 0
  }

  /** The filter `useEvents` sends: the limit defaults to 20, a bound is sent
      only when it is truthy, authors only when the list is non-empty, and a
      tag filter only for keys with at least one value. */
  function EventsFilter(o: ListOptions): (f: Filter)
    ensures f.kinds == [EventKind]
    ensures f.limit == Some(o.limit.GetOr(20))
    ensures f.since == (if Set(o.since) then o.since else None)
    ensures f.until == (if Set(o.until) then o.until else None)
    ensures f.authors.Some? <==> o.authors.Some? && |o.authors.value| > 0
    ensures f.authors.Some? ==> f.authors == o.authors
    ensures forall k :: k in f.tagFilters <==> o.tags.Some? && k in o.tags.value && |o.tags.value[k]| > 0
    ensures forall k :: k in f.tagFilters ==> f.tagFilters[k] == o.tags.value[k]
  {
    var tagFilters := if o.tags.None? then map[]
      else map k | k in o.tags.value && |o.tags.value[k]| > 0 :: o.tags.value[k];
    Filter([EventKind],
           if o.authors.Some? && |o.authors.value| > 0 then o.authors else None,
           tagFilters,
           if Set(o.since) then o.since else None,
           if Set(o.until) then o.until else None,
           Some(o.limit.GetOr(20)))
  }

  /** The decoder as a value, for `events.map(parseNostrEvent)`. */
  function DecodeWith(parse: string -> Option<EventData>): WireEvent -> Option<EventWithMeta> {
    w => EventCodec.Decode(w, parse)
  }

  /** `new Date(e.startDate).getTime()`, with the date parser a parameter. */
  function StartKey(startMs: string -> int): EventWithMeta -> int {
    (e: EventWithMeta) => startMs(e.data.startDate)
  }

  /** The query function of `useEvents`: decode every result, drop the ones
      that do not decode, sort by start time, earliest first. */
  function ListEvents(results: seq<WireEvent>, parse: string -> Option<EventData>,
                      startMs: string -> int): (r: seq<EventWithMeta>)
    ensures SortedBy(r, StartKey(startMs))
    ensures multiset(r) == multiset(Keep(results, DecodeWith(parse)))
    ensures forall e :: e in r <==> exists w :: w in results && EventCodec.Decode(w, parse) == Some(e)
  {
    var kept := Keep(results, DecodeWith(parse));
    var r := SortBy(kept, StartKey(startMs));
    assert forall e :: e in r <==> e in multiset(r);
    assert forall e :: e in kept <==> e in multiset(kept);
    r
  }

  /** Every listed event is the decoding of something the relay returned,
      and as many events are listed as results decode. */
  lemma ListEventsCount(results: seq<WireEvent>, parse: string -> Option<EventData>, startMs: string -> int)
    ensures |ListEvents(results, parse, startMs)| == |Seqs.Filter(results, Decodes(DecodeWith(parse)))|
    ensures |ListEvents(results, parse, startMs)| <= |results|
  {
    var kept := Keep(results, DecodeWith(parse));
    assert |multiset(ListEvents(results, parse, startMs))| == |multiset(kept)|;
  }

  /** `{ t: tags }` when tags were given, `{}` otherwise. */
  function TopicFilter(tags: Option<seq<string>>): (m: map<string, seq<string>>)
    ensures m.Keys <= {"t"}
    ensures "t" in m <==> tags.Some? && |tags.value| > 0
    ensures "t" in m ==> m["t"] == tags.value
  {
    if tags.Some? && |tags.value| > 0 then map["t" := tags.value] else map[]
  }

  /** `Math.floor(midnight.getTime() / 1000)`: local midnight in Unix seconds. */
  function MidnightSeconds(midnightMs: int): (s: int)
    ensures s * 1000 <= midnightMs < s * 1000 + 1000
  {
    midnightMs / 1000
  }

  /** The options `useUpcomingEvents` passes on: events since midnight. */
  function UpcomingOptions(limit: Option<int>, authors: Option<seq<string>>, tags: Option<seq<string>>,
                           midnightMs: int): ListOptions {
    ListOptions(Some(limit.GetOr(20)), Some(MidnightSeconds(midnightMs)), None, authors, Some(TopicFilter(tags)))
  }

  /** The options `usePastEvents` passes on: events until midnight. */
  function PastOptions(limit: Option<int>, authors: Option<seq<string>>, tags: Option<seq<string>>,
                       midnightMs: int): ListOptions {
    ListOptions(Some(limit.GetOr(20)), None, Some(MidnightSeconds(midnightMs)), authors, Some(TopicFilter(tags)))
  }

  /** The upcoming and past filters differ only in which side of midnight
      they bound: the upcoming one has a lower bound and no upper bound, the
      past one the reverse, both at the same instant; kind, limit, authors
      and topic filters coincide. */
  lemma UpcomingPastSplit(limit: Option<int>, authors: Option<seq<string>>, tags: Option<seq<string>>,
                          midnightMs: int)
    requires midnightMs >= 1000
    ensures var up := EventsFilter(UpcomingOptions(limit, authors, tags, midnightMs));
            var past := EventsFilter(PastOptions(limit, authors, tags, midnightMs));
            up.since == past.until == Some(MidnightSeconds(midnightMs))
            && up.until.None? && past.since.None?
            && up.(since := None) == past.(until := None)
            && up.limit == Some(limit.GetOr(20))
  {
    var up := EventsFilter(UpcomingOptions(limit, authors, tags, midnightMs));
    var past := EventsFilter(PastOptions(limit, authors, tags, midnightMs));
    assert up.tagFilters == past.tagFilters;
  }

  /** A topic filter reaches the relay exactly when topics were selected. */
  lemma UpcomingTopics(limit: Option<int>, authors: Option<seq<string>>, tags: Option<seq<string>>,
                       midnightMs: int)
    ensures var f := EventsFilter(UpcomingOptions(limit, authors, tags, midnightMs));
            ("t" in f.tagFilters <==> tags.Some? && |tags.value| > 0)
            && ("t" in f.tagFilters ==> f.tagFilters["t"] == tags.value)
            && f.tagFilters.Keys <= {"t"}
  {
  }
}
