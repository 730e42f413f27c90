/** What the application assumes of the relays, not part of its own code:
    the replacement rule for addressable events of NIP-01 (kinds 30000 to
    39999). A relay keeps, for each kind, author and `d` value, only the
    newest event. `Publish` states that rule as the model's assumption about
    the relay, and the lemmas show what the application's records then look
    like to a reader. */
module Relay {
  import opened Wrappers
  import opened Types
  import opened Wire
  import opened Seqs
  import RsvpCodec
  import RsvpHooks

  predicate Addressable(kind: int) {
    30000 <= kind < 40000
  }

  /** The `d` value of an event as the relay reads it ("" when missing). */
  function DValue(tags: seq<Tag>): string {
    Lookup(tags, "d").GetOr("")
  }

  datatype Slot = Slot(kind: int, pubkey: string, d: string)

  function SlotOf(w: WireEvent): Slot {
    Slot(w.kind, w.pubkey, DValue(w.tags))
  }

  /** Some stored event in the same slot is newer than `w`. */
  predicate Superseded(stored: seq<WireEvent>, w: WireEvent) {
    exists i :: 0 <= i < |stored| && SlotOf(stored[i]) == SlotOf(w) && stored[i].createdAt > w.createdAt
  }

  /** The assumed relay: an addressable event replaces the events of its slot
      unless a newer one is already stored; other events are appended. */
  function Publish(stored: seq<WireEvent>, w: WireEvent): (r: seq<WireEvent>)
    ensures !Addressable(w.kind) ==> r == stored + [w]
    ensures Addressable(w.kind) && Superseded(stored, w) ==> r == stored
    ensures Addressable(w.kind) && !Superseded(stored, w) ==>
      w in r && forall x :: x in r && SlotOf(x) == SlotOf(w) ==> x == w
    ensures forall x :: x in stored && SlotOf(x) != SlotOf(w) ==> x in r
    ensures forall x :: x in r ==> x == w || x in stored
  {
    if !Addressable(w.kind) then stored + [w]
    else if Superseded(stored, w) then stored
    else Seqs.Filter(stored, (x: WireEvent) => SlotOf(x) != SlotOf(w)) + [w]
  }

  /** No two stored addressable events share a slot. */
  ghost predicate OnePerSlot(stored: seq<WireEvent>) {
    forall i, j :: 0 <= i < j < |stored| && Addressable(stored[i].kind) ==> SlotOf(stored[i]) != SlotOf(stored[j])
  }

  /** Under the assumed rule, a store holds at most one event per slot after
      any addressable publication. */
  lemma PublishKeepsOnePerSlot(stored: seq<WireEvent>, w: WireEvent)
    requires OnePerSlot(stored)
    requires Addressable(w.kind)
    ensures OnePerSlot(Publish(stored, w))
  {
    if !Superseded(stored, w) {
      var p := (x: WireEvent) => SlotOf(x) != SlotOf(w);
      var kept := Seqs.Filter(stored, p);
      var r := kept + [w];
      assert OnePerSlot(kept) by {
        SubsequenceOnePerSlot(kept, stored);
      }
      forall i, j | 0 <= i < j < |r| && Addressable(r[i].kind)
        ensures SlotOf(r[i]) != SlotOf(r[j])
      {
        if j == |r| - 1 {
          assert r[i] in kept;
        }
      }
    }
  }

  /** Dropping events keeps the one-per-slot property. */
  lemma {:induction false} SubsequenceOnePerSlot(a: seq<WireEvent>, b: seq<WireEvent>)
    requires Subsequence(a, b) && OnePerSlot(b)
    ensures OnePerSlot(a)
    decreases |b|
  {
    if |a| > 0 && |b| > 0 {
      assert OnePerSlot(b[1..]) by {
        forall i, j | 0 <= i < j < |b[1..]| && Addressable(b[1..][i].kind)
          ensures SlotOf(b[1..][i]) != SlotOf(b[1..][j])
        {
          assert b[1..][i] == b[i + 1] && b[1..][j] == b[j + 1];
        }
      }
      if a[0] == b[0] && Subsequence(a[1..], b[1..]) {
        SubsequenceOnePerSlot(a[1..], b[1..]);
        forall i, j | 0 <= i < j < |a| && Addressable(a[i].kind)
          ensures SlotOf(a[i]) != SlotOf(a[j])
        {
          if i == 0 {
            SubsequenceMembers(a[1..], b[1..]);
            assert a[j] == a[1..][j - 1] && a[j] in a[1..];
            var k :| 0 <= k < |b[1..]| && b[1..][k] == a[j];
            assert b[k + 1] == a[j];
          } else {
            assert a[i] == a[1..][i - 1] && a[j] == a[1..][j - 1];
          }
        }
      } else {
        SubsequenceOnePerSlot(a, b[1..]);
      }
    }
  }

  /** Two responses by one user to one event share a slot, whatever they say. */
  lemma ResponsesShareSlot(user: string, r1: Rsvp, r2: Rsvp, eventId: string, creatorId: string, t1: int, t2: int,
                           stringify: RsvpCodec.RsvpPayload -> string)
    requires user != ""
    ensures SlotOf(Sign(RsvpHooks.SubmitRsvp(Some(user), r1, eventId, creatorId, stringify).value.draft, user, t1))
         == SlotOf(Sign(RsvpHooks.SubmitRsvp(Some(user), r2, eventId, creatorId, stringify).value.draft, user, t2))
  {
  }

  /** A newer event in an occupied slot leaves only itself there. */
  lemma Replaces(earlier: WireEvent, later: WireEvent)
    requires Addressable(earlier.kind) && SlotOf(earlier) == SlotOf(later) && earlier.createdAt < later.createdAt
    ensures Publish(Publish([], earlier), later) == [later]
  {
    assert Publish([], earlier) == [earlier];
    assert !Superseded([earlier], later);
    var p := (x: WireEvent) => SlotOf(x) != SlotOf(later);
    assert Seqs.Filter([earlier], p) == [];
  }

  /** The counts of a single "maybe" with no party size. */
  lemma CountsOfOneMaybe(user: string, eventId: string, creatorId: string, t: int,
                         parse: string -> Option<RsvpCodec.RsvpPayload>, stringify: RsvpCodec.RsvpPayload -> string)
    requires user != "" && eventId != ""
    requires parse(stringify(RsvpCodec.ToPayload(Rsvp(Maybe, None, None)))) == Some(RsvpCodec.ToPayload(Rsvp(Maybe, None, None)))
    ensures var maybe := Sign(RsvpHooks.SubmitRsvp(Some(user), Rsvp(Maybe, None, None), eventId, creatorId, stringify).value.draft, user, t);
            RsvpHooks.EventRsvps([maybe], parse).counts == RsvpCounts(0, 0, 1)
  {
    var maybe := Sign(RsvpHooks.SubmitRsvp(Some(user), Rsvp(Maybe, None, None), eventId, creatorId, stringify).value.draft, user, t);
    RsvpCodec.RoundTrip(Rsvp(Maybe, None, None), eventId, creatorId, user, user, t, parse, stringify);
    var parsed := RsvpCodec.ParsedRsvp(Rsvp(Maybe, None, Some(1)), eventId, user);
    assert RsvpCodec.Decode(maybe, parse) == Some(parsed);
    RsvpHooks.SingleResult(maybe, parse);
    RsvpHooks.SingleResponse(parsed);
  }

  /** A user answers "yes" and later changes the answer to "maybe". The
      second response lands in the slot of the first, so the relay keeps
      only it, and the event's head counts read one "maybe" and no "yes". */
  lemma ChangeOfMind(user: string, eventId: string, creatorId: string, t1: int, t2: int,
                     parse: string -> Option<RsvpCodec.RsvpPayload>, stringify: RsvpCodec.RsvpPayload -> string)
    requires user != "" && eventId != "" && t1 < t2
    requires parse(stringify(RsvpCodec.ToPayload(Rsvp(Maybe, None, None)))) == Some(RsvpCodec.ToPayload(Rsvp(Maybe, None, None)))
    ensures var yes := Sign(RsvpHooks.SubmitRsvp(Some(user), Rsvp(Yes, None, None), eventId, creatorId, stringify).value.draft, user, t1);
            var maybe := Sign(RsvpHooks.SubmitRsvp(Some(user), Rsvp(Maybe, None, None), eventId, creatorId, stringify).value.draft, user, t2);
            var stored := Publish(Publish([], yes), maybe);
            stored == [maybe] && RsvpHooks.EventRsvps(stored, parse).counts == RsvpCounts(0, 0, 1)
  {
    var yes := Sign(RsvpHooks.SubmitRsvp(Some(user), Rsvp(Yes, None, None), eventId, creatorId, stringify).value.draft, user, t1);
    var maybe := Sign(RsvpHooks.SubmitRsvp(Some(user), Rsvp(Maybe, None, None), eventId, creatorId, stringify).value.draft, user, t2);
    ResponsesShareSlot(user, Rsvp(Yes, None, None), Rsvp(Maybe, None, None), eventId, creatorId, t1, t2, stringify);
    Replaces(yes, maybe);
    CountsOfOneMaybe(user, eventId, creatorId, t2, parse, stringify);
  }
}
