/** The update feed of one event (hooks/events/useEventUpdates.ts): every
    kind-31002 note that references the event, newest first. */
module EventUpdates {
  import opened Wrappers
  import opened Types
  import opened Wire
  import opened Filters
  import opened Seqs
  import opened Sorting
  import UpdateCodec

  /** `{ kinds: [EVENT_UPDATE_KIND], '#e': [eventId] }`: no author
      restriction, so notes by anyone who references the event match. */
  function UpdatesFilter(eventId: string): (f: Filter)
    ensures f.kinds == [UpdateKind] && f.tagFilters == map["e" := [eventId]]
    ensures f.authors.None? && f.limit.None?
  {
    TagQuery(UpdateKind, map["e" := [eventId]])
  }

  /** The comparator `b.createdAt - a.createdAt` as an ascending key. */
  function NewestFirst(u: EventUpdate): int {
    -u.createdAt
  }

  predicate NewestFirstOrder(us: seq<EventUpdate>) {
    forall i, j :: 0 <= i < j < |us| ==> us[i].createdAt >= us[j].createdAt
  }

  /** The query function: decode, drop what does not decode, newest first. */
  function ListUpdates(results: seq<WireEvent>): (r: seq<EventUpdate>)
    ensures NewestFirstOrder(r)
    ensures multiset(r) == multiset(Keep(results, UpdateCodec.Decode))
    ensures forall u :: u in r <==> exists w :: w in results && UpdateCodec.Decode(w) == Some(u)
  {
    var kept := Keep(results, UpdateCodec.Decode);
    var r := SortBy(kept, NewestFirst);
    assert SortedBy(r, NewestFirst);
    assert forall i, j :: 0 <= i < j < |r| ==> NewestFirst(r[i]) <= NewestFirst(r[j]);
    assert forall u :: u in r <==> u in multiset(r);
    assert forall u :: u in kept <==> u in multiset(kept);
    r
  }

  /** The head of a non-empty feed is an update no other listed one
      postdates. */
  lemma LatestFirst(results: seq<WireEvent>)
    requires |ListUpdates(results)| > 0
    ensures forall u :: u in ListUpdates(results) ==> u.createdAt <= ListUpdates(results)[0].createdAt
  {
    var r := ListUpdates(results);
    forall u | u in r
      ensures u.createdAt <= r[0].createdAt
    {
      var k :| 0 <= k < |r| && r[k] == u;
    }
  }

  /** A note the organiser posts for this event appears in its feed. */
  lemma PostedUpdateListed(content: string, eventId: string, creator: string, t: UpdateType, clock: nat,
                           signer: string, createdAt: int, before: seq<WireEvent>, after: seq<WireEvent>)
    requires eventId != ""
    ensures EventUpdate(UpdateCodec.UpdateId(clock), eventId, signer, content, UpdateTypeName(t), createdAt)
            in ListUpdates(before + [Sign(UpdateCodec.Encode(content, eventId, creator, t, clock), signer, createdAt)] + after)
  {
    var w := Sign(UpdateCodec.Encode(content, eventId, creator, t, clock), signer, createdAt);
    UpdateCodec.RoundTrip(content, eventId, creator, t, clock, signer, createdAt);
    assert w in before + [w] + after;
  }
}
