/** Encoding and decoding of kind-31002 event updates
    (`parseNostrEventUpdate`, `createNostrEventUpdateObject` in
    lib/nostr/eventUtils.ts). The content is plain text and is not parsed. */
module UpdateCodec {
  import opened Wrappers
  import opened Text
  import opened Types
  import opened Wire

  /** `parseNostrEventUpdate`: both the update's own `d` and the referenced
      `e` must have non-empty values; the type is the first non-empty `type`
      value, taken as it is, and `announcement` without one. */
  function Decode(w: WireEvent): (r: Option<EventUpdate>)
    ensures r.Some? <==>
      && (exists i :: IsFirst(w.tags, "d", i) && Second(w.tags[i]) != "")
      && (exists i :: IsFirst(w.tags, "e", i) && Second(w.tags[i]) != "")
    ensures r.Some? ==>
      && (exists i :: IsFirst(w.tags, "d", i) && r.value.id == Second(w.tags[i]))
      && (exists i :: IsFirst(w.tags, "e", i) && r.value.eventId == Second(w.tags[i]))
      && r.value.content == w.content
      && r.value.creatorId == w.pubkey
      && r.value.createdAt == w.createdAt
      && ((exists i :: IsFirst(w.tags, "type", i) && Second(w.tags[i]) != "" && r.value.updateType == Second(w.tags[i]))
          || ((forall i :: IsFirst(w.tags, "type", i) ==> Second(w.tags[i]) == "") && r.value.updateType == "announcement"))
  {
    match Lookup(w.tags, "d")
    case None => None
    case Some(id) =>
      match Lookup(w.tags, "e")
      case None => None
      case Some(eventId) =>
        Some(EventUpdate(id, eventId, w.pubkey, w.content, OrElse(Lookup(w.tags, "type"), "announcement"), w.createdAt))
  }

  /** `update_${Date.now()}` for a clock reading in milliseconds. */
  function UpdateId(clock: nat): string {
    "update_" + NatToString(clock)
  }

  /** Two update identifiers coincide exactly when the clock readings do. */
  lemma UpdateIdsDistinct(c1: nat, c2: nat)
    ensures UpdateId(c1) == UpdateId(c2) <==> c1 == c2
  {
    if UpdateId(c1) == UpdateId(c2) {
      assert NatToString(c1) == UpdateId(c1)[7..];
      assert NatToString(c2) == UpdateId(c2)[7..];
      NatToStringInjective(c1, c2);
    }
  }

  /** `createNostrEventUpdateObject`, with the clock as an argument. */
  function Encode(content: string, eventId: string, creatorPubkey: string, t: UpdateType, clock: nat): (d: Draft)
    ensures d.kind == UpdateKind && d.content == content
    ensures Lookup(d.tags, "d") == Some(UpdateId(clock))
    ensures Lookup(d.tags, "e") == NonEmpty(eventId)
    ensures PairValues(d.tags, "p") == [creatorPubkey]
    ensures Lookup(d.tags, "type") == Some(UpdateTypeName(t))
  {
    ReferenceTagLookups(UpdateId(clock), eventId, creatorPubkey, "type", UpdateTypeName(t));
    Draft(UpdateKind, ReferenceTags(UpdateId(clock), eventId, creatorPubkey, "type", UpdateTypeName(t)), content)
  }

  /** Decoding an encoded update gives back its content verbatim, its type,
      the referenced event and the signer; an empty event id makes it
      undecodable. */
  lemma RoundTrip(content: string, eventId: string, creatorPubkey: string, t: UpdateType, clock: nat,
                  signer: string, createdAt: int)
    ensures Decode(Sign(Encode(content, eventId, creatorPubkey, t, clock), signer, createdAt))
      == if eventId == "" then None
         else Some(EventUpdate(UpdateId(clock), eventId, signer, content, UpdateTypeName(t), createdAt))
  {
  }

  /** The decoder does not check the type: any non-empty `type` value,
      including one outside the three declared names, is passed through
      unchanged. */
  lemma UnknownTypePassesThrough(w: WireEvent, id: string, eventId: string, creator: string, t: string)
    requires id != "" && eventId != "" && t != ""
    requires w.tags == ReferenceTags(id, eventId, creator, "type", t)
    ensures Decode(w).Some? && Decode(w).value.updateType == t
  {
    ReferenceTagLookups(id, eventId, creator, "type", t);
  }
}
