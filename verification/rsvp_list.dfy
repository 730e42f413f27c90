/** The attendee panel of an event (components/events/RSVPList.tsx): the
    responses split by status, the head counts shown above them, and the
    guest line under each responder. */
module RsvpList {
  import opened Wrappers
  import opened Types
  import opened Seqs
  import opened RsvpCodec
  import opened RsvpHooks

  datatype Partition = Partition(yes: seq<ParsedRsvp>, no: seq<ParsedRsvp>, maybe: seq<ParsedRsvp>)

  /** The `useMemo`: three empty lists until data arrives, then the
      responses of each status in relay order. */
  function Partitioned(data: Option<RsvpSummary>): (p: Partition)
    ensures data.None? ==> p == Partition([], [], [])
    ensures data.Some? ==>
      && Subsequence(p.yes, data.value.rsvps)
      && Subsequence(p.no, data.value.rsvps)
      && Subsequence(p.maybe, data.value.rsvps)
      && (forall r :: r in p.yes <==> r in data.value.rsvps && r.rsvp.status == Yes)
      && (forall r :: r in p.no <==> r in data.value.rsvps && r.rsvp.status == No)
      && (forall r :: r in p.maybe <==> r in data.value.rsvps && r.rsvp.status == Maybe)
  {
    if data.None? then Partition([], [], [])
    else
      var rs := data.value.rsvps;
      Partition(Seqs.Filter(rs, HasStatus(Yes)), Seqs.Filter(rs, HasStatus(No)), Seqs.Filter(rs, HasStatus(Maybe)))
  }

  /** The three lists split the responses: every response lands in exactly
      one of them, as often as it occurs. */
  lemma PartitionComplete(rs: seq<ParsedRsvp>)
    ensures multiset(Seqs.Filter(rs, HasStatus(Yes))) + multiset(Seqs.Filter(rs, HasStatus(No)))
            + multiset(Seqs.Filter(rs, HasStatus(Maybe))) == multiset(rs)
  {
    FilterPartition3(rs, HasStatus(Yes), HasStatus(No), HasStatus(Maybe));
  }

  /** `data?.counts || { yes: 0, no: 0, maybe: 0 }`. */
  function DisplayedCounts(data: Option<RsvpSummary>): (c: RsvpCounts)
    ensures data.None? ==> c == RsvpCounts(0, 0, 0)
    ensures data.Some? ==> c == data.value.counts
  {
    if data.None? then RsvpCounts(0, 0, 0) else data.value.counts
  }

  /** The panel shows "No RSVPs yet" without data or without responses. */
  predicate ShowsEmpty(data: Option<RsvpSummary>) {
    data.None? || |data.value.rsvps| == 0
  }

  /** The counts above the tabs agree with the lists under them: each is
      the party total of its tab. */
  lemma CountsMatchTabs(results: seq<Wire.WireEvent>, parse: string -> Option<RsvpPayload>)
    ensures var data := Some(EventRsvps(results, parse));
            var p := Partitioned(data);
            var c := DisplayedCounts(data);
            c.yes == TotalParty(p.yes) && c.no == TotalParty(p.no) && c.maybe == TotalParty(p.maybe)
  {
  }

  /** The party size a row shows: `attendees || 1`. */
  function ShownPartySize(r: ParsedRsvp): int {
    PartySize(r.rsvp.attendees)
  }

  /** `+{attendees - 1} guests`, shown only when the party exceeds one. */
  function Guests(attendees: int): (g: Option<int>)
    ensures g.Some? <==> attendees > 1
    ensures g.Some? ==> g.value >= 1 && g.value + 1 == attendees
  {
    if attendees > 1 then Some(attendees - 1) else None
  }

  /** For a party of at least one, the responder plus the guests shown
      make up the party. */
  lemma GuestsMakeParty(r: ParsedRsvp)
    requires ShownPartySize(r) >= 1
    ensures 1 + Guests(ShownPartySize(r)).GetOr(0) == ShownPartySize(r)
  {
  }
}
