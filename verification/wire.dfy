/** The generic tagged event that travels between client and relays, and the
    tag lookups every decoder shares (lib/nostr/eventUtils.ts). */
module Wire {
  import opened Wrappers

  const EventKind: int := 31000
  const RsvpKind: int := 31001
  const UpdateKind: int := 31002

  /** A tag is a string array; element 0 is its name. */
  type Tag = seq<string>

  datatype WireEvent = WireEvent(
    kind: int,
    pubkey: string,
    createdAt: int,
    tags: seq<Tag>,
    content: string)

  /** What an encoder hands to the publish client: kind, tags and content. */
  datatype Draft = Draft(kind: int, tags: seq<Tag>, content: string)

  /** The publish client signs a draft as `pubkey` at time `createdAt`. */
  function Sign(d: Draft, pubkey: string, createdAt: int): (w: WireEvent)
    ensures w.kind == d.kind && w.tags == d.tags && w.content == d.content
    ensures w.pubkey == pubkey && w.createdAt == createdAt
  {
    WireEvent(d.kind, pubkey, createdAt, d.tags, d.content)
  }

  /** `tag[0] === name` (an empty tag has no name). */
  predicate Named(t: Tag, name: string) {
    |t| > 0 && t[0] == name
  }

  predicate Absent(tags: seq<Tag>, name: string) {
    forall i :: 0 <= i < |tags| ==> !Named(tags[i], name)
  }

  /** Tag `i` is the first one called `name`. */
  predicate IsFirst(tags: seq<Tag>, name: string, i: int) {
    0 <= i < |tags| && Named(tags[i], name) && Absent(tags[..i], name)
  }

  /** `tags.find(tag => tag[0] === name)`. */
  function Find(tags: seq<Tag>, name: string): (r: Option<Tag>)
    ensures r.None? <==> Absent(tags, name)
    ensures r.Some? ==> exists i :: IsFirst(tags, name, i) && tags[i] == r.value
  {
    if |tags| == 0 then None
    else if Named(tags[0], name) then
      assert IsFirst(tags, name, 0);
      Some(tags[0])
    else
      var r := Find(tags[1..], name);
      if r.Some? then
        var i :| IsFirst(tags[1..], name, i) && tags[1..][i] == r.value;
        assert tags[..i + 1] == [tags[0]] + tags[1..][..i];
        assert IsFirst(tags, name, i + 1);
        r
      else
        r
  }

  /** `tag[1]`, where a tag without element 1 yields the empty string. */
  function Second(t: Tag): string {
    if |t| >= 2 then t[1] else ""
  }

  /** `tag && tag[1] ? tag[1] : undefined` for the first tag called `name`:
      its value when that value is non-empty, and nothing otherwise, even if
      a later tag of the same name has a value. */
  function Lookup(tags: seq<Tag>, name: string): (r: Option<string>)
    ensures r.Some? <==> exists i :: IsFirst(tags, name, i) && Second(tags[i]) != ""
    ensures r.Some? ==> r.value != ""
    ensures forall i :: IsFirst(tags, name, i) && Second(tags[i]) != "" ==> r == Some(Second(tags[i]))
  {
    var t := Find(tags, name);
    FirstUnique(tags, name);
    if t.Some? && Second(t.value) != "" then Some(Second(t.value)) else None
  }

  lemma FirstUnique(tags: seq<Tag>, name: string)
    ensures forall i, j :: IsFirst(tags, name, i) && IsFirst(tags, name, j) ==> i == j
  {
    forall i, j | IsFirst(tags, name, i) && IsFirst(tags, name, j)
      ensures i == j
    {
    }
  }

  /** `value || fallback` where `value` comes from a tag. */
  function OrElse(value: Option<string>, fallback: string): string {
    if value.Some? then value.value else fallback
  }

  /** `tags.filter(tag => tag[0] === name).map(tag => tag[1])`. */
  function Values(tags: seq<Tag>, name: string): (r: seq<string>)
    ensures |r| <= |tags|
    ensures Absent(tags, name) ==> r == []
    ensures forall v :: v in r <==> exists i :: 0 <= i < |tags| && Named(tags[i], name) && Second(tags[i]) == v
  {
    if |tags| == 0 then []
    else
      var rest := Values(tags[1..], name);
      assert forall i :: 1 <= i < |tags| ==> tags[i] == tags[1..][i - 1];
      (if Named(tags[0], name) then [Second(tags[0])] else []) + rest
  }

  /** `tags.filter(tag => tag[0] === name && tag.length >= 2).map(tag => tag[1])`. */
  function PairValues(tags: seq<Tag>, name: string): (r: seq<string>)
    ensures |r| <= |tags|
    ensures Absent(tags, name) ==> r == []
    ensures forall v :: v in r <==> exists i :: 0 <= i < |tags| && Named(tags[i], name) && |tags[i]| >= 2 && tags[i][1] == v
  {
    if |tags| == 0 then []
    else
      var rest := PairValues(tags[1..], name);
      assert forall i :: 1 <= i < |tags| ==> tags[i] == tags[1..][i - 1];
      (if Named(tags[0], name) && |tags[0]| >= 2 then [tags[0][1]] else []) + rest
  }

  /** One tag `[name, v]` per value, in order. */
  function Repeat(name: string, vs: seq<string>): (r: seq<Tag>)
    ensures |r| == |vs|
    ensures forall i :: 0 <= i < |vs| ==> r[i] == [name, vs[i]]
  {
    if |vs| == 0 then [] else [[name, vs[0]]] + Repeat(name, vs[1..])
  }

  lemma AbsentAppend(a: seq<Tag>, b: seq<Tag>, name: string)
    ensures Absent(a + b, name) <==> Absent(a, name) && Absent(b, name)
  {
    if Absent(a, name) && Absent(b, name) {
      forall i | 0 <= i < |a + b|
        ensures !Named((a + b)[i], name)
      {
        if i >= |a| {
          assert (a + b)[i] == b[i - |a|];
        }
      }
    }
    if Absent(a + b, name) {
      forall i | 0 <= i < |a|
        ensures !Named(a[i], name)
      {
        assert (a + b)[i] == a[i];
      }
      forall i | 0 <= i < |b|
        ensures !Named(b[i], name)
      {
        assert (a + b)[|a| + i] == b[i];
      }
    }
  }

  /** Tags before the first tag called `name` do not change its lookup. */
  lemma {:induction false} FindSkip(a: seq<Tag>, b: seq<Tag>, name: string)
    requires Absent(a, name)
    ensures Find(a + b, name) == Find(b, name)
    decreases |a|
  {
    if |a| > 0 {
      assert (a + b)[0] == a[0];
      assert (a + b)[1..] == a[1..] + b;
      FindSkip(a[1..], b, name);
    } else {
      assert a + b == b;
    }
  }

  lemma LookupSkip(a: seq<Tag>, b: seq<Tag>, name: string)
    requires Absent(a, name)
    ensures Lookup(a + b, name) == Lookup(b, name)
  {
    FindSkip(a, b, name);
  }

  /** A tag `[name, v]` in front decides the lookup: `v` when non-empty. */
  lemma LookupHead(v: string, b: seq<Tag>, name: string)
    ensures Lookup([[name, v]] + b, name) == (if v == "" then None else Some(v))
  {
    assert Named(([[name, v]] + b)[0], name);
  }

  lemma {:induction false} ValuesAppend(a: seq<Tag>, b: seq<Tag>, name: string)
    ensures Values(a + b, name) == Values(a, name) + Values(b, name)
    decreases |a|
  {
    if |a| > 0 {
      assert (a + b)[0] == a[0];
      assert (a + b)[1..] == a[1..] + b;
      ValuesAppend(a[1..], b, name);
    } else {
      assert a + b == b;
    }
  }

  lemma {:induction false} PairValuesAppend(a: seq<Tag>, b: seq<Tag>, name: string)
    ensures PairValues(a + b, name) == PairValues(a, name) + PairValues(b, name)
    decreases |a|
  {
    if |a| > 0 {
      assert (a + b)[0] == a[0];
      assert (a + b)[1..] == a[1..] + b;
      PairValuesAppend(a[1..], b, name);
    } else {
      assert a + b == b;
    }
  }

  /** One tag contributes its value exactly when it has the name; with
      `ValuesAppend` this fixes the values of any tag list, in order. */
  lemma ValuesOfOne(t: Tag, name: string)
    ensures Values([t], name) == (if Named(t, name) then [Second(t)] else [])
    ensures PairValues([t], name) == (if Named(t, name) && |t| >= 2 then [t[1]] else [])
  {
    assert [t][1..] == [];
  }

  /** A tag of another name, anywhere in the list, does not change which tag
      `find` returns for `name`. */
  lemma {:induction false} FindInsert(a: seq<Tag>, t: Tag, b: seq<Tag>, name: string)
    requires !Named(t, name)
    ensures Find(a + [t] + b, name) == Find(a + b, name)
    decreases |a|
  {
    if |a| == 0 {
      assert a + [t] + b == [t] + b;
      assert a + b == b;
      assert Absent([t], name);
      FindSkip([t], b, name);
    } else {
      assert (a + [t] + b)[0] == a[0] && (a + b)[0] == a[0];
      assert (a + [t] + b)[1..] == a[1..] + [t] + b;
      assert (a + b)[1..] == a[1..] + b;
      if !Named(a[0], name) {
        FindInsert(a[1..], t, b, name);
      }
    }
  }

  lemma LookupInsert(a: seq<Tag>, t: Tag, b: seq<Tag>, name: string)
    requires !Named(t, name)
    ensures Lookup(a + [t] + b, name) == Lookup(a + b, name)
  {
    FindInsert(a, t, b, name);
  }

  lemma {:induction false} ValuesOfRepeat(name: string, vs: seq<string>)
    ensures Values(Repeat(name, vs), name) == vs
    ensures PairValues(Repeat(name, vs), name) == vs
    decreases |vs|
  {
    if |vs| > 0 {
      ValuesOfRepeat(name, vs[1..]);
      assert Repeat(name, vs)[1..] == Repeat(name, vs[1..]);
      assert vs == [vs[0]] + vs[1..];
    }
  }

  lemma AbsentFromRepeat(name: string, vs: seq<string>, other: string)
    requires other != name
    ensures Absent(Repeat(name, vs), other)
  {
  }

  lemma {:induction false} ValuesNonEmpty(tags: seq<Tag>, name: string)
    ensures !Absent(tags, name) ==> |Values(tags, name)| > 0
    decreases |tags|
  {
    if |tags| > 0 {
      ValuesNonEmpty(tags[1..], name);
    }
  }

  /** Every tag in `tags` called `name` is `[name, v]`. */
  ghost predicate OnlyAs(tags: seq<Tag>, name: string, v: string) {
    forall t :: t in tags && Named(t, name) ==> t == [name, v]
  }

  /** When every tag called `name` is `[name, v]` and there is one, the
      lookup yields `v` if it is non-empty. */
  lemma LookupUniform(tags: seq<Tag>, name: string, v: string)
    requires OnlyAs(tags, name, v)
    requires !Absent(tags, name)
    ensures Lookup(tags, name) == (if v == "" then None else Some(v))
  {
    var t := Find(tags, name);
    var i :| IsFirst(tags, name, i) && tags[i] == t.value;
    assert tags[i] in tags;
  }

  lemma LookupAbsent(tags: seq<Tag>, name: string)
    requires Absent(tags, name)
    ensures Lookup(tags, name) == None
  {
  }

  /** The four tags RSVPs and updates carry: their own identifier, the event
      they refer to, the event's creator and one descriptive tag. */
  function ReferenceTags(id: string, eventId: string, creator: string, marker: string, value: string): seq<Tag> {
    [["d", id], ["e", eventId], ["p", creator], [marker, value]]
  }

  /** A lookup of the tag at the head of the list. */
  lemma LookupAtHead(tags: seq<Tag>, name: string, v: string)
    requires |tags| > 0 && tags[0] == [name, v]
    ensures Lookup(tags, name) == (if v == "" then None else Some(v))
  {
    assert tags == [[name, v]] + tags[1..];
    LookupHead(v, tags[1..], name);
  }

  lemma ReferenceTagLookups(id: string, eventId: string, creator: string, marker: string, value: string)
    requires marker != "d" && marker != "e" && marker != "p"
    ensures var tags := ReferenceTags(id, eventId, creator, marker, value);
      && Lookup(tags, "d") == (if id == "" then None else Some(id))
      && Lookup(tags, "e") == (if eventId == "" then None else Some(eventId))
      && Lookup(tags, marker) == (if value == "" then None else Some(value))
      && PairValues(tags, "p") == [creator]
  {
    var tags := ReferenceTags(id, eventId, creator, marker, value);
    LookupAtHead(tags, "d", id);
    ReferenceE(id, eventId, creator, marker, value);
    ReferenceMarker(id, eventId, creator, marker, value);
    ReferenceP(id, eventId, creator, marker, value);
  }

  lemma ReferenceE(id: string, eventId: string, creator: string, marker: string, value: string)
    ensures Lookup(ReferenceTags(id, eventId, creator, marker, value), "e") == (if eventId == "" then None else Some(eventId))
  {
    var tags := ReferenceTags(id, eventId, creator, marker, value);
    assert tags == [["d", id]] + tags[1..];
    assert !Named(["d", id], "e");
    LookupSkip([["d", id]], tags[1..], "e");
    LookupAtHead(tags[1..], "e", eventId);
  }

  lemma ReferenceMarker(id: string, eventId: string, creator: string, marker: string, value: string)
    requires marker != "d" && marker != "e" && marker != "p"
    ensures Lookup(ReferenceTags(id, eventId, creator, marker, value), marker) == (if value == "" then None else Some(value))
  {
    var tags := ReferenceTags(id, eventId, creator, marker, value);
    var pre := [["d", id], ["e", eventId], ["p", creator]];
    assert tags == pre + [[marker, value]];
    assert !Named(pre[0], marker) && !Named(pre[1], marker) && !Named(pre[2], marker);
    LookupSkip(pre, [[marker, value]], marker);
    LookupAtHead([[marker, value]], marker, value);
  }

  lemma ReferenceP(id: string, eventId: string, creator: string, marker: string, value: string)
    requires marker != "p"
    ensures PairValues(ReferenceTags(id, eventId, creator, marker, value), "p") == [creator]
  {
    var tags := ReferenceTags(id, eventId, creator, marker, value);
    var pre := [["d", id], ["e", eventId]];
    var post := [["p", creator], [marker, value]];
    assert tags == pre + post;
    PairValuesAppend(pre, post, "p");
    assert Absent(pre, "p");
    assert post[1..] == [[marker, value]];
    assert PairValues(post[1..], "p") == [] by {
      assert Absent(post[1..], "p");
    }
  }
}
