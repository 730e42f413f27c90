/** The search and marker selection of the events map
    (components/events/EventsMap.tsx). When the upcoming events or the query
    change, the map recomputes the searched list, the events that can be
    placed on it, and its centre: the mean position of those events, or a
    fixed default when there are none. Coordinates are JavaScript numbers,
    modelled as reals. */
module EventsMap {
  import opened Wrappers
  import opened Text
  import opened Types
  import opened Seqs
  import EventsPage

  /** The location has a non-empty address containing `q`, ignoring case. */
  predicate AddressContains(e: EventWithMeta, q: string) {
    e.data.location.Some? && Truthy(e.data.location.value.address)
    && Contains(Lower(e.data.location.value.address.value), q)
  }

  /** The map's search: the page's fields plus the address. */
  predicate MatchesMapQuery(e: EventWithMeta, q: string) {
    Contains(Lower(e.data.title), q)
    || Contains(Lower(e.data.description), q)
    || EventsPage.NameContains(e, q)
    || AddressContains(e, q)
    || EventsPage.SomeTopicContains(e, q)
  }

  /** The searched list: a copy of all events for a blank query, otherwise
      the events matching it, in order. */
  function MapSearch(events: seq<EventWithMeta>, raw: string): (r: seq<EventWithMeta>)
    ensures EventsPage.SearchQuery(raw) == "" ==> r == events
    ensures Subsequence(r, events)
    ensures forall e :: e in r <==>
      e in events && (EventsPage.SearchQuery(raw) == "" || MatchesMapQuery(e, EventsPage.SearchQuery(raw)))
  {
    var q := EventsPage.SearchQuery(raw);
    if q == "" then
      SubsequenceReflexive(events);
      events
    else Seqs.Filter(events, (e: EventWithMeta) => MatchesMapQuery(e, q))
  }

  /** The map finds at least what the events page finds for the same query. */
  lemma MapSearchWider(e: EventWithMeta, q: string)
    requires q != ""
    ensures EventsPage.MatchesQuery(e, q) ==> MatchesMapQuery(e, q)
  {
  }

  lemma MainQuery()
    ensures EventsPage.SearchQuery("Main") == "main"
  {
    var l := Lower("Main");
    assert l[0] == 'm' && l[1] == 'a' && l[2] == 'i' && l[3] == 'n';
    assert l == "main";
    assert TrimStart("main") == "main";
    assert TrimEnd("main") == "main";
  }

  function AddressOnlyEvent(): EventWithMeta {
    var loc := Location(None, Some("main street"), None, None);
    EventWithMeta(EventData("", "", "", None, Some(loc), None, None, None, None, None, None, None, None),
                  "x", "k", 0, None, None, None)
  }

  lemma AddressMatches()
    ensures MatchesMapQuery(AddressOnlyEvent(), "main")
    ensures !EventsPage.MatchesQuery(AddressOnlyEvent(), "main")
  {
    var l := Lower("main street");
    assert l[..4] == "main";
    assert Contains(l, "main");
    assert !Contains("", "main");
  }

  /** A query that only an address contains: the map keeps the event, the
      events page drops it. */
  lemma AddressOnlyOnMap()
    ensures MapSearch([AddressOnlyEvent()], "Main") == [AddressOnlyEvent()]
    ensures EventsPage.FilterEvents(Some([AddressOnlyEvent()]), "Main", []) == []
  {
    var e := AddressOnlyEvent();
    MainQuery();
    AddressMatches();
    var m := MapSearch([e], "Main");
    assert e in m;
    assert |m| <= 1;
    var r := EventsPage.FilterEvents(Some([e]), "Main", []);
    assert e !in r;
    assert |r| <= 1;
  }

  /** `event.location?.latitude && event.location?.longitude`: both present
      and non-zero. */
  predicate HasCoordinates(e: EventWithMeta) {
    e.data.location.Some? && TruthyNumber(e.data.location.value.latitude)
    && TruthyNumber(e.data.location.value.longitude)
  }

  /** The events that get a marker, in order. */
  function WithCoordinates(events: seq<EventWithMeta>): (r: seq<EventWithMeta>)
    ensures Subsequence(r, events)
    ensures forall e :: e in r <==> e in events && HasCoordinates(e)
    ensures forall i :: 0 <= i < |r| ==> HasCoordinates(r[i])
  {
    Seqs.Filter(events, HasCoordinates)
  }

  /** `x || 0` for a coordinate. */
  function Coord(o: Option<real>): real {
    if TruthyNumber(o) then o.value else 0.0
  }

  function Latitude(e: EventWithMeta): real {
    if e.data.location.Some? then Coord(e.data.location.value.latitude) else 0.0
  }

  function Longitude(e: EventWithMeta): real {
    if e.data.location.Some? then Coord(e.data.location.value.longitude) else 0.0
  }

  /** The `reduce` sums of one coordinate over the markers. */
  function Sum(events: seq<EventWithMeta>, coord: EventWithMeta -> real): real {
    if |events| == 0 then 0.0 else coord(events[0]) + Sum(events[1..], coord)
  }

  const DefaultCentre: (real, real) := (37.7749, -122.4194)

  /** The mean marker position, or the default with no markers. */
  function Centre(markers: seq<EventWithMeta>): (c: (real, real))
    ensures |markers| == 0 ==> c == DefaultCentre
    ensures |markers| > 0 ==>
      c.0 * |markers| as real == Sum(markers, Latitude) && c.1 * |markers| as real == Sum(markers, Longitude)
  {
    if |markers| == 0 then DefaultCentre
    else (Sum(markers, Latitude) / |markers| as real, Sum(markers, Longitude) / |markers| as real)
  }

  /** A sum of values all within `[lo, hi]` lies within `n` times the bounds. */
  lemma {:induction false} SumBounds(events: seq<EventWithMeta>, coord: EventWithMeta -> real, lo: real, hi: real)
    requires forall i :: 0 <= i < |events| ==> lo <= coord(events[i]) <= hi
    ensures lo * |events| as real <= Sum(events, coord) <= hi * |events| as real
  {
    if |events| > 0 {
      SumBounds(events[1..], coord, lo, hi);
    }
  }

  /** A mean of values within bounds stays within them. */
  lemma MeanInside(sum: real, n: real, lo: real, hi: real)
    requires n > 0.0 && lo * n <= sum <= hi * n
    ensures lo <= sum / n <= hi
  {
    var m := sum / n;
    assert m * n == sum;
    assert (m - lo) * n >= 0.0;
    assert (hi - m) * n >= 0.0;
  }

  /** The mean of one coordinate lies within any bounds of its values. */
  lemma MeanBounds(events: seq<EventWithMeta>, coord: EventWithMeta -> real, lo: real, hi: real)
    requires |events| > 0
    requires forall i :: 0 <= i < |events| ==> lo <= coord(events[i]) <= hi
    ensures lo <= Sum(events, coord) / |events| as real <= hi
  {
    SumBounds(events, coord, lo, hi);
    MeanInside(Sum(events, coord), |events| as real, lo, hi);
  }

  /** The centre lies inside every box that holds all markers. */
  lemma CentreInside(markers: seq<EventWithMeta>, south: real, north: real, west: real, east: real)
    requires |markers| > 0
    requires forall i :: 0 <= i < |markers| ==> south <= Latitude(markers[i]) <= north
    requires forall i :: 0 <= i < |markers| ==> west <= Longitude(markers[i]) <= east
    ensures south <= Centre(markers).0 <= north && west <= Centre(markers).1 <= east
  {
    MeanBounds(markers, Latitude, south, north);
    MeanBounds(markers, Longitude, west, east);
  }

  datatype MapView = MapView(filtered: seq<EventWithMeta>, markers: seq<EventWithMeta>, centre: (real, real))

  function InitialView(): MapView {
    MapView([], [], DefaultCentre)
  }

  /** The effect body: nothing changes until the events have loaded; then
      the searched list, its placeable events and their centre. */
  function Refresh(events: Option<seq<EventWithMeta>>, raw: string, prev: MapView): (v: MapView)
    ensures events.None? ==> v == prev
    ensures events.Some? ==>
      && v.filtered == MapSearch(events.value, raw)
      && v.markers == WithCoordinates(v.filtered)
      && v.centre == Centre(v.markers)
      && Subsequence(v.markers, v.filtered)
      && Subsequence(v.markers, events.value)
  {
    if events.None? then prev
    else
      var filtered := MapSearch(events.value, raw);
      var markers := WithCoordinates(filtered);
      SubsequenceTransitive(markers, filtered, events.value);
      MapView(filtered, markers, Centre(markers))
  }

  /** An event at latitude 0 gets no marker, and without markers the map
      returns to the default centre. */
  lemma EquatorExcluded(e: EventWithMeta)
    requires e.data.location.Some? && e.data.location.value.latitude == Some(0.0)
    ensures Refresh(Some([e]), "", InitialView()).markers == []
    ensures Refresh(Some([e]), "", InitialView()).centre == DefaultCentre
  {
    assert AllSpace(Lower(""));
    assert !HasCoordinates(e);
    assert Seqs.Filter([e], HasCoordinates) == [];
  }
}
