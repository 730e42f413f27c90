/** Encoding and decoding of kind-31001 RSVPs (`parseNostrRSVP`,
    `createNostrRSVPObject` in lib/nostr/eventUtils.ts). */
module RsvpCodec {
  import opened Wrappers
  import opened Types
  import opened Wire

  /** The RSVP payload as JSON gives it back: nothing guarantees that the
      status is one of the three names or that the party size is positive. */
  datatype RsvpPayload = RsvpPayload(status: Option<string>, comment: Option<string>, attendees: Option<int>)

  /** The payload a typed RSVP serialises to. */
  function ToPayload(r: Rsvp): RsvpPayload {
    RsvpPayload(Some(StatusName(r.status)), r.comment, r.attendees)
  }

  /** A decoded RSVP with the event it answers and the responder's key. */
  datatype ParsedRsvp = ParsedRsvp(rsvp: Rsvp, eventId: string, userId: string)

  /** `attendees || 1`: an absent or zero count is one person; a negative
      count is kept as it is. */
  function PartySize(a: Option<int>): (n: int)
    ensures n != 0
    ensures a.None? ==> n == 1
    ensures a.Some? ==> n == (if a.value == 0 then 1 else a.value)
  {
    if a.Some? && a.value != 0 then a.value else 1
  }

  /** Applying the default twice changes nothing. */
  lemma PartySizeIdempotent(a: Option<int>)
    ensures PartySize(Some(PartySize(a))) == PartySize(a)
  {
  }

  /** `parseNostrRSVP`. */
  function Decode(w: WireEvent, parse: string -> Option<RsvpPayload>): (r: Option<ParsedRsvp>)
    ensures parse(w.content).None? ==> r.None?
    ensures r.Some? <==>
      && parse(w.content).Some?
      && (exists i :: IsFirst(w.tags, "e", i) && Second(w.tags[i]) != "")
      && parse(w.content).value.status.Some?
      && ParseStatus(parse(w.content).value.status.value).Some?
    ensures r.Some? ==>
      var p := parse(w.content).value;
      && (exists i :: IsFirst(w.tags, "e", i) && r.value.eventId == Second(w.tags[i]))
      && r.value.userId == w.pubkey
      && StatusName(r.value.rsvp.status) == p.status.value
      && r.value.rsvp.comment == p.comment
      && r.value.rsvp.attendees == Some(PartySize(p.attendees))
  {
    match parse(w.content)
    case None => None
    case Some(p) =>
      match Lookup(w.tags, "e")
      case None => None
      case Some(eventId) =>
        if p.status.None? then None
        else
          match ParseStatus(p.status.value)
          case None => None
          case Some(status) =>
            Some(ParsedRsvp(Rsvp(status, p.comment, Some(PartySize(p.attendees))), eventId, w.pubkey))
  }

  /** `${userPubkey.substring(0, 8)}_${eventId}`. */
  function RsvpId(userPubkey: string, eventId: string): string {
    var n := if |userPubkey| < 8 then |userPubkey| else 8;
    userPubkey[..n] + "_" + eventId
  }

  /** `createNostrRSVPObject`: the `d` tag is derived from the responder and
      the event alone; the `status` tag repeats the payload's status. */
  function Encode(r: Rsvp, eventId: string, creatorPubkey: string, userPubkey: string,
                  stringify: RsvpPayload -> string): (d: Draft)
    ensures d.kind == RsvpKind && d.content == stringify(ToPayload(r))
    ensures Lookup(d.tags, "d") == Some(RsvpId(userPubkey, eventId))
    ensures Lookup(d.tags, "e") == NonEmpty(eventId)
    ensures PairValues(d.tags, "p") == [creatorPubkey]
    ensures Lookup(d.tags, "status") == Some(StatusName(r.status))
  {
    var tags := ReferenceTags(RsvpId(userPubkey, eventId), eventId, creatorPubkey, "status", StatusName(r.status));
    ReferenceTagLookups(RsvpId(userPubkey, eventId), eventId, creatorPubkey, "status", StatusName(r.status));
    Draft(RsvpKind, tags, stringify(ToPayload(r)))
  }

  /** Decoding an encoded RSVP recovers it with the party size defaulted,
      the event it answers and the signer; an empty event id makes it
      undecodable. */
  lemma RoundTrip(r: Rsvp, eventId: string, creatorPubkey: string, userPubkey: string,
                  signer: string, createdAt: int,
                  parse: string -> Option<RsvpPayload>, stringify: RsvpPayload -> string)
    requires parse(stringify(ToPayload(r))) == Some(ToPayload(r))
    ensures Decode(Sign(Encode(r, eventId, creatorPubkey, userPubkey, stringify), signer, createdAt), parse)
      == if eventId == "" then None
         else Some(ParsedRsvp(r.(attendees := Some(PartySize(r.attendees))), eventId, signer))
  {
    var w := Sign(Encode(r, eventId, creatorPubkey, userPubkey, stringify), signer, createdAt);
    assert parse(w.content) == Some(ToPayload(r));
    assert Lookup(w.tags, "e") == NonEmpty(eventId);
  }

  /** Two RSVPs by the same user share their `d` tag exactly when they
      answer the same event, whatever their status or comment. */
  lemma RsvpIdDeterministic(userPubkey: string, e1: string, e2: string)
    ensures RsvpId(userPubkey, e1) == RsvpId(userPubkey, e2) <==> e1 == e2
  {
    var n := if |userPubkey| < 8 then |userPubkey| else 8;
    var prefix := userPubkey[..n] + "_";
    assert RsvpId(userPubkey, e1) == prefix + e1 && RsvpId(userPubkey, e2) == prefix + e2;
    if prefix + e1 == prefix + e2 {
      assert e1 == (prefix + e1)[|prefix|..];
      assert e2 == (prefix + e2)[|prefix|..];
    }
  }

  /** The `status` tag plays no part in decoding: inserting one anywhere in
      the tags leaves the result unchanged. */
  lemma StatusTagIgnored(w: WireEvent, a: seq<Tag>, b: seq<Tag>, s: string, parse: string -> Option<RsvpPayload>)
    ensures Decode(w.(tags := a + [["status", s]] + b), parse) == Decode(w.(tags := a + b), parse)
  {
    LookupInsert(a, ["status", s], b, "e");
  }
}
