/** The RSVP hooks (hooks/events/useRSVP.ts): the responses to one event
    with per-status head counts, the signed-in user's own response, and
    submitting a response. */
module RsvpHooks {
  import opened Wrappers
  import opened Types
  import opened Wire
  import opened Filters
  import opened Seqs
  import opened Mutations
  import opened RsvpCodec

  // -------------------------------------------------------------- all RSVPs

  /** `{ kinds: [RSVP_KIND], '#e': [eventId], '#p': [creatorId] }`. */
  function EventRsvpsFilter(eventId: string, creatorId: string): (f: Filter)
    ensures f.kinds == [RsvpKind] && f.authors.None?
    ensures f.tagFilters == map["e" := [eventId], "p" := [creatorId]]
  {
    TagQuery(RsvpKind, map["e" := [eventId], "p" := [creatorId]])
  }

  function EventRsvpsKey(eventId: string): QueryKey {
    ["event-rsvps", eventId]
  }

  function HasStatus(s: RsvpStatus): ParsedRsvp -> bool {
    (r: ParsedRsvp) => r.rsvp.status == s
  }

  /** The people a list of responses brings, each counting `attendees || 1`. */
  function TotalParty(rs: seq<ParsedRsvp>): int {
    if |rs| == 0 then 0 else PartySize(rs[0].rsvp.attendees) + TotalParty(rs[1..])
  }

  function Zero(): RsvpCounts {
    RsvpCounts(0, 0, 0)
  }

  /** `counts[rsvp.rsvp.status] += rsvp.rsvp.attendees || 1`. */
  function Bump(c: RsvpCounts, r: ParsedRsvp): RsvpCounts {
    var n := PartySize(r.rsvp.attendees);
    match r.rsvp.status
    case Yes => c.(yes := c.yes + n)
    case No => c.(no := c.no + n)
    case Maybe => c.(maybe := c.maybe + n)
  }

  /** The `forEach` over `rs` starting from the counts `acc`: each bucket
      grows by the party sizes of exactly the responses with its status. */
  function TallyFrom(acc: RsvpCounts, rs: seq<ParsedRsvp>): (c: RsvpCounts)
    decreases |rs|
    ensures c.yes == acc.yes + TotalParty(Seqs.Filter(rs, HasStatus(Yes)))
    ensures c.no == acc.no + TotalParty(Seqs.Filter(rs, HasStatus(No)))
    ensures c.maybe == acc.maybe + TotalParty(Seqs.Filter(rs, HasStatus(Maybe)))
    ensures c.yes + c.no + c.maybe == acc.yes + acc.no + acc.maybe + TotalParty(rs)
  {
    if |rs| == 0 then acc
    else
      var r := rs[0];
      assert Seqs.Filter(rs, HasStatus(r.rsvp.status)) == [r] + Seqs.Filter(rs[1..], HasStatus(r.rsvp.status));
      TallyFrom(Bump(acc, r), rs[1..])
  }

  /** The counts `useEventRSVPs` reports. */
  function Tally(rs: seq<ParsedRsvp>): (c: RsvpCounts)
    ensures c.yes == TotalParty(Seqs.Filter(rs, HasStatus(Yes)))
    ensures c.no == TotalParty(Seqs.Filter(rs, HasStatus(No)))
    ensures c.maybe == TotalParty(Seqs.Filter(rs, HasStatus(Maybe)))
    ensures c.yes + c.no + c.maybe == TotalParty(rs)
  {
    TallyFrom(Zero(), rs)
  }

  datatype RsvpSummary = RsvpSummary(rsvps: seq<ParsedRsvp>, counts: RsvpCounts)

  function DecodeWith(parse: string -> Option<RsvpPayload>): WireEvent -> Option<ParsedRsvp> {
    w => RsvpCodec.Decode(w, parse)
  }

  /** The query function of `useEventRSVPs`: every result that decodes, in
      relay order, and the head counts of those responses. */
  function EventRsvps(results: seq<WireEvent>, parse: string -> Option<RsvpPayload>): (s: RsvpSummary)
    ensures forall p :: p in s.rsvps <==> exists w :: w in results && RsvpCodec.Decode(w, parse) == Some(p)
    ensures |s.rsvps| <= |results|
    ensures s.counts.yes + s.counts.no + s.counts.maybe == TotalParty(s.rsvps)
    ensures s.counts.yes == TotalParty(Seqs.Filter(s.rsvps, HasStatus(Yes)))
    ensures s.counts.no == TotalParty(Seqs.Filter(s.rsvps, HasStatus(No)))
    ensures s.counts.maybe == TotalParty(Seqs.Filter(s.rsvps, HasStatus(Maybe)))
    ensures var decodable := Seqs.Filter(results, Decodes(DecodeWith(parse)));
      && Subsequence(decodable, results)
      && |s.rsvps| == |decodable|
      && forall i :: 0 <= i < |s.rsvps| ==> RsvpCodec.Decode(decodable[i], parse) == Some(s.rsvps[i])
  {
    var rsvps := Keep(results, DecodeWith(parse));
    RsvpSummary(rsvps, Tally(rsvps))
  }

  /** Two answers read one after the other give the responses of the first
      followed by those of the second, and counts that add up; with
      `SingleResult` this fixes the responses of any answer, in relay order
      and with a response returned twice counted twice. */
  lemma EventRsvpsAppend(a: seq<WireEvent>, b: seq<WireEvent>, parse: string -> Option<RsvpPayload>)
    ensures EventRsvps(a + b, parse).rsvps == EventRsvps(a, parse).rsvps + EventRsvps(b, parse).rsvps
    ensures EventRsvps(a + b, parse).counts.yes == EventRsvps(a, parse).counts.yes + EventRsvps(b, parse).counts.yes
    ensures EventRsvps(a + b, parse).counts.no == EventRsvps(a, parse).counts.no + EventRsvps(b, parse).counts.no
    ensures EventRsvps(a + b, parse).counts.maybe == EventRsvps(a, parse).counts.maybe + EventRsvps(b, parse).counts.maybe
  {
    var ra, rb := EventRsvps(a, parse).rsvps, EventRsvps(b, parse).rsvps;
    KeepAppend(a, b, DecodeWith(parse));
    FilterAppend(ra, rb, HasStatus(Yes));
    FilterAppend(ra, rb, HasStatus(No));
    FilterAppend(ra, rb, HasStatus(Maybe));
    TotalPartyAppend(Seqs.Filter(ra, HasStatus(Yes)), Seqs.Filter(rb, HasStatus(Yes)));
    TotalPartyAppend(Seqs.Filter(ra, HasStatus(No)), Seqs.Filter(rb, HasStatus(No)));
    TotalPartyAppend(Seqs.Filter(ra, HasStatus(Maybe)), Seqs.Filter(rb, HasStatus(Maybe)));
  }

  lemma {:induction false} TotalPartyAppend(a: seq<ParsedRsvp>, b: seq<ParsedRsvp>)
    ensures TotalParty(a + b) == TotalParty(a) + TotalParty(b)
    decreases |a|
  {
    if |a| == 0 {
      assert a + b == b;
    } else {
      assert (a + b)[1..] == a[1..] + b;
      TotalPartyAppend(a[1..], b);
    }
  }

  /** Every decoded response brings at least one person, so the total is at
      least the number of responses. */
  lemma {:induction false} TotalPartyAtLeastCount(rs: seq<ParsedRsvp>)
    requires forall i :: 0 <= i < |rs| ==> rs[i].rsvp.attendees.GetOr(1) >= 1
    ensures TotalParty(rs) >= |rs|
  {
    if |rs| > 0 {
      TotalPartyAtLeastCount(rs[1..]);
    }
  }

  /** A single response of party `n` counts `n` under its own status and
      nothing under the others. */
  lemma SingleResponse(r: ParsedRsvp)
    ensures Tally([r]).yes == (if r.rsvp.status == Yes then PartySize(r.rsvp.attendees) else 0)
    ensures Tally([r]).no == (if r.rsvp.status == No then PartySize(r.rsvp.attendees) else 0)
    ensures Tally([r]).maybe == (if r.rsvp.status == Maybe then PartySize(r.rsvp.attendees) else 0)
  {
    assert [r][1..] == [];
  }

  /** A single result yields exactly its response when it decodes, and
      nothing when it does not. */
  lemma SingleResult(w: WireEvent, parse: string -> Option<RsvpPayload>)
    ensures RsvpCodec.Decode(w, parse).Some? ==> EventRsvps([w], parse).rsvps == [RsvpCodec.Decode(w, parse).value]
    ensures RsvpCodec.Decode(w, parse).None? ==> EventRsvps([w], parse).rsvps == []
  {
    KeepOne(w, DecodeWith(parse));
  }

  // ----------------------------------------------------------- own response

  /** The signed-in user's key, if any; `!user?.pubkey` means none. */
  predicate SignedIn(user: Option<string>) {
    user.Some? && user.value != ""
  }

  function UserRsvpFilter(eventId: string, creatorId: string, user: string): (f: Filter)
    ensures f.kinds == [RsvpKind] && f.authors == Some([user])
    ensures f.tagFilters == map["e" := [eventId], "p" := [creatorId]]
  {
    EventRsvpsFilter(eventId, creatorId).(authors := Some([user]))
  }

  /** `['user-rsvp', eventId, user?.pubkey]`, an absent key written as "". */
  function UserRsvpKey(eventId: string, user: Option<string>): QueryKey {
    ["user-rsvp", eventId, user.GetOr("")]
  }

  /** The query function of `useUserRSVP`: nothing when signed out or when
      the relay returned nothing, otherwise the first result's response if
      it decodes. */
  function UserRsvp(user: Option<string>, results: seq<WireEvent>, parse: string -> Option<RsvpPayload>): (r: Option<Rsvp>)
    ensures r.Some? <==> SignedIn(user) && |results| > 0 && RsvpCodec.Decode(results[0], parse).Some?
    ensures r.Some? ==> r.value == RsvpCodec.Decode(results[0], parse).value.rsvp
  {
    if !SignedIn(user) || |results| == 0 then None
    else
      match RsvpCodec.Decode(results[0], parse)
      case None => None
      case Some(p) => Some(p.rsvp)
  }

  /** Only the first result is read; later ones, even newer responses by the
      same user, never change the answer. */
  lemma UserRsvpFirstOnly(user: Option<string>, w: WireEvent, rest1: seq<WireEvent>, rest2: seq<WireEvent>,
                          parse: string -> Option<RsvpPayload>)
    ensures UserRsvp(user, [w] + rest1, parse) == UserRsvp(user, [w] + rest2, parse)
  {
    assert ([w] + rest1)[0] == w == ([w] + rest2)[0];
  }

  // --------------------------------------------------------------- submit

  function StatusVerb(s: RsvpStatus): string {
    match s
    case Yes => "accepted"
    case No => "declined"
    case Maybe => "marked as maybe"
  }

  /** `useSubmitRSVP`: a signed-in user publishes the response and the two
      RSVP queries of the event go stale; a signed-out user gets the error
      toast. */
  function SubmitRsvp(user: Option<string>, r: Rsvp, eventId: string, creatorId: string,
                      stringify: RsvpPayload -> string): (res: Result<Published, Failure>)
    ensures res.Err? <==> !SignedIn(user)
    ensures res.Err? ==> res.error == Failure("RSVP Failed", NotLoggedIn)
    ensures res.Ok? ==>
      && res.value.draft == RsvpCodec.Encode(r, eventId, creatorId, user.value, stringify)
      && res.value.invalidated == RsvpKeys(eventId)
      && res.value.toastTitle == "RSVP Submitted"
      && res.value.toastDescription == "Your RSVP was successfully " + StatusVerb(r.status)
  {
    if !SignedIn(user) then Err(Failure("RSVP Failed", NotLoggedIn))
    else
      Ok(Published(RsvpCodec.Encode(r, eventId, creatorId, user.value, stringify),
                   RsvpKeys(eventId),
                   "RSVP Submitted",
                   "Your RSVP was successfully " + StatusVerb(r.status)))
  }

  /** The query keys a successful submission invalidates. */
  function RsvpKeys(eventId: string): seq<QueryKey> {
    [["user-rsvp", eventId], EventRsvpsKey(eventId)]
  }

  /** A successful submission makes every user's own-response query and the
      response list of that event stale, and no other event's. */
  lemma SubmitInvalidates(eventId: string, anyone: Option<string>, other: string)
    requires other != eventId
    ensures AnyInvalidates(RsvpKeys(eventId), UserRsvpKey(eventId, anyone))
    ensures AnyInvalidates(RsvpKeys(eventId), EventRsvpsKey(eventId))
    ensures !AnyInvalidates(RsvpKeys(eventId), UserRsvpKey(other, anyone))
    ensures !AnyInvalidates(RsvpKeys(eventId), EventRsvpsKey(other))
  {
    var keys := RsvpKeys(eventId);
    assert Invalidates(keys[0], UserRsvpKey(eventId, anyone));
    assert Invalidates(keys[1], EventRsvpsKey(eventId));
    forall i | 0 <= i < |keys|
      ensures !Invalidates(keys[i], UserRsvpKey(other, anyone))
      ensures !Invalidates(keys[i], EventRsvpsKey(other))
    {
      assert keys[i][1] == eventId;
      assert UserRsvpKey(other, anyone)[1] == other;
      assert EventRsvpsKey(other)[1] == other;
    }
  }

  /** Resubmitting for the same event, with any status, comment or party
      size, reuses the `d` tag of the first submission, so the relay keeps
      only the newer one; a response to another event gets its own tag. */
  lemma ResubmitSameSlot(user: string, r1: Rsvp, r2: Rsvp, e1: string, e2: string, creatorId: string,
                         stringify: RsvpPayload -> string)
    requires user != ""
    ensures var d1 := SubmitRsvp(Some(user), r1, e1, creatorId, stringify).value.draft;
            var d2 := SubmitRsvp(Some(user), r2, e2, creatorId, stringify).value.draft;
            d1.kind == d2.kind
            && (Lookup(d1.tags, "d") == Lookup(d2.tags, "d") <==> e1 == e2)
  {
    RsvpIdDeterministic(user, e1, e2);
  }

  /** What a user submits is what `useUserRSVP` later reads back, with the
      party size defaulted, when the relay returns it first. */
  lemma SubmitThenRead(user: string, r: Rsvp, eventId: string, creatorId: string, createdAt: int,
                       rest: seq<WireEvent>, parse: string -> Option<RsvpPayload>, stringify: RsvpPayload -> string)
    requires user != "" && eventId != ""
    requires parse(stringify(ToPayload(r))) == Some(ToPayload(r))
    ensures var d := SubmitRsvp(Some(user), r, eventId, creatorId, stringify).value.draft;
            UserRsvp(Some(user), [Sign(d, user, createdAt)] + rest, parse)
              == Some(r.(attendees := Some(PartySize(r.attendees))))
  {
    var d := SubmitRsvp(Some(user), r, eventId, creatorId, stringify).value.draft;
    RsvpCodec.RoundTrip(r, eventId, creatorId, user, user, createdAt, parse, stringify);
    assert ([Sign(d, user, createdAt)] + rest)[0] == Sign(d, user, createdAt);
  }
}
