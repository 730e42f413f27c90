/** The list filters of the events page (pages/events/EventsPage.tsx): a
    free-text search over an event's texts, a selection of topic tags, the
    sorted list of every tag in view, and toggling a tag in the selection. */
module EventsPage {
  import opened Wrappers
  import opened Text
  import opened Types
  import opened Seqs
  import opened Sorting

  /** `searchQuery.toLowerCase().trim()`. */
  function SearchQuery(raw: string): string {
    Trim(Lower(raw))
  }

  /** Some topic of the event contains `q`, ignoring case. */
  predicate SomeTopicContains(e: EventWithMeta, q: string) {
    e.data.tags.Some? && exists i :: 0 <= i < |e.data.tags.value| && Contains(Lower(e.data.tags.value[i]), q)
  }

  /** The location has a non-empty name containing `q`, ignoring case. */
  predicate NameContains(e: EventWithMeta, q: string) {
    e.data.location.Some? && Truthy(e.data.location.value.name) && Contains(Lower(e.data.location.value.name.value), q)
  }

  /** `matchesQuery`: title, description, location name or a topic; the
      address is not searched. */
  predicate MatchesQuery(e: EventWithMeta, q: string) {
    q == ""
    || Contains(Lower(e.data.title), q)
    || Contains(Lower(e.data.description), q)
    || NameContains(e, q)
    || SomeTopicContains(e, q)
  }

  /** `matchesTags`: no selection, or some topic of the event is selected,
      compared exactly. */
  predicate MatchesTags(e: EventWithMeta, selected: seq<string>) {
    |selected| == 0 || (e.data.tags.Some? && exists i :: 0 <= i < |e.data.tags.value| && e.data.tags.value[i] in selected)
  }

  /** `filterEvents`, whose argument defaults to the empty list. */
  function FilterEvents(events: Option<seq<EventWithMeta>>, raw: string, selected: seq<string>): (r: seq<EventWithMeta>)
    ensures Subsequence(r, events.GetOr([]))
    ensures forall e :: e in r <==>
      e in events.GetOr([]) && MatchesQuery(e, SearchQuery(raw)) && MatchesTags(e, selected)
  {
    var q := SearchQuery(raw);
    Seqs.Filter(events.GetOr([]), (e: EventWithMeta) => MatchesQuery(e, q) && MatchesTags(e, selected))
  }

  /** With a blank query and nothing selected, every event stays, in order. */
  lemma FilterNothing(events: seq<EventWithMeta>, raw: string)
    requires AllSpace(Lower(raw))
    ensures FilterEvents(Some(events), raw, []) == events
  {
    var q := SearchQuery(raw);
    assert q == "";
    FilterKeepsAll(events, (e: EventWithMeta) => MatchesQuery(e, q) && MatchesTags(e, []));
  }

  /** The search, restated with substring occurrence: a non-blank query
      matches exactly when it occurs in the lower-cased title, description,
      non-empty location name or some topic. */
  lemma MatchesQueryOccurs(e: EventWithMeta, q: string)
    ensures MatchesQuery(e, q) <==>
      q == ""
      || Occurs(q, Lower(e.data.title))
      || Occurs(q, Lower(e.data.description))
      || (e.data.location.Some? && Truthy(e.data.location.value.name) && Occurs(q, Lower(e.data.location.value.name.value)))
      || (e.data.tags.Some? && exists t :: t in e.data.tags.value && Occurs(q, Lower(t)))
  {
    ContainsIsOccurs(Lower(e.data.title), q);
    ContainsIsOccurs(Lower(e.data.description), q);
    if e.data.location.Some? && Truthy(e.data.location.value.name) {
      ContainsIsOccurs(Lower(e.data.location.value.name.value), q);
    }
    if e.data.tags.Some? {
      var ts := e.data.tags.value;
      forall i | 0 <= i < |ts|
        ensures Contains(Lower(ts[i]), q) <==> Occurs(q, Lower(ts[i]))
      {
        ContainsIsOccurs(Lower(ts[i]), q);
      }
      if exists t :: t in ts && Occurs(q, Lower(t)) {
        var t :| t in ts && Occurs(q, Lower(t));
        var i :| 0 <= i < |ts| && ts[i] == t;
      }
    }
  }

  /** The topics of all events in view. */
  function TopicsOf(events: seq<EventWithMeta>): (ts: seq<string>)
    ensures forall t :: t in ts <==> exists e :: e in events && e.data.tags.Some? && t in e.data.tags.value
  {
    var lists := MapSeq(events, (e: EventWithMeta) => e.data.tags.GetOr([]));
    var all := Flatten(lists);
    assert forall t :: t in all <==> exists e :: e in events && e.data.tags.Some? && t in e.data.tags.value by {
      forall t
        ensures t in all <==> exists e :: e in events && e.data.tags.Some? && t in e.data.tags.value
      {
        if t in all {
          var i :| 0 <= i < |lists| && t in lists[i];
          assert events[i] in events;
        }
        if exists e :: e in events && e.data.tags.Some? && t in e.data.tags.value {
          var e :| e in events && e.data.tags.Some? && t in e.data.tags.value;
          var i :| 0 <= i < |events| && events[i] == e;
          assert t in lists[i];
        }
      }
    }
    all
  }

  /** `getAllTags`: every topic of the upcoming and past events, once each,
      in ascending order. */
  function AllTags(upcoming: Option<seq<EventWithMeta>>, past: Option<seq<EventWithMeta>>): (r: seq<string>)
    ensures StrictlySorted(r)
    ensures forall t :: t in r <==>
      exists e :: e in upcoming.GetOr([]) + past.GetOr([]) && e.data.tags.Some? && t in e.data.tags.value
  {
    SortedUnique(TopicsOf(upcoming.GetOr([]) + past.GetOr([])))
  }

  /** `getAllTags` lists no tag twice. */
  lemma AllTagsDistinct(upcoming: Option<seq<EventWithMeta>>, past: Option<seq<EventWithMeta>>)
    ensures NoDuplicates(AllTags(upcoming, past))
  {
    StrictlySortedDistinct(AllTags(upcoming, past));
  }

  /** `toggleTag`: drop every copy of a selected tag, append an unselected one. */
  function ToggleTag(selected: seq<string>, tag: string): (r: seq<string>)
    ensures forall t :: t in r <==> (t in selected) != (t == tag)
    ensures tag !in selected ==> r == selected + [tag]
    ensures tag in selected ==> Subsequence(r, selected)
  {
    if tag in selected then Seqs.Filter(selected, (t: string) => t != tag) else selected + [tag]
  }

  /** Toggling twice restores the selection's members; on a selection with
      no repeats that lacked the tag, it restores the selection itself. */
  lemma ToggleTwice(selected: seq<string>, tag: string)
    ensures forall t :: t in ToggleTag(ToggleTag(selected, tag), tag) <==> t in selected
    ensures tag !in selected ==> ToggleTag(ToggleTag(selected, tag), tag) == selected
  {
    if tag !in selected {
      var p := (t: string) => t != tag;
      FilterAppend(selected, [tag], p);
      FilterKeepsAll(selected, p);
      assert Seqs.Filter([tag], p) == [];
    }
  }
}
