/** Sequence operations the source performs through `Array.prototype`
    (`filter`, `map(...).filter(Boolean)`, `flat`, `includes`), each with the
    order and membership facts the rest of the model relies on. */
module Seqs {
  import opened Wrappers

  /** `a` is obtained from `b` by deleting elements, keeping the order. */
  predicate Subsequence<T(==)>(a: seq<T>, b: seq<T>)
    decreases |b|
  {
    |a| == 0
    || (|b| > 0 && ((a[0] == b[0] && Subsequence(a[1..], b[1..])) || Subsequence(a, b[1..])))
  }

  lemma {:induction false} SubsequenceReflexive<T>(a: seq<T>)
    ensures Subsequence(a, a)
    decreases |a|
  {
    if |a| > 0 {
      SubsequenceReflexive(a[1..]);
    }
  }

  lemma {:induction false} SubsequenceTransitive<T>(a: seq<T>, b: seq<T>, c: seq<T>)
    requires Subsequence(a, b) && Subsequence(b, c)
    ensures Subsequence(a, c)
    decreases |c|
  {
    if |a| > 0 {
      if b[0] == c[0] && Subsequence(b[1..], c[1..]) {
        if a[0] == b[0] && Subsequence(a[1..], b[1..]) {
          SubsequenceTransitive(a[1..], b[1..], c[1..]);
        } else {
          SubsequenceTransitive(a, b[1..], c[1..]);
        }
      } else {
        SubsequenceTransitive(a, b, c[1..]);
      }
    }
  }

  lemma {:induction false} SubsequenceMembers<T>(a: seq<T>, b: seq<T>)
    requires Subsequence(a, b)
    ensures forall x :: x in a ==> x in b
    decreases |b|
  {
    if |a| > 0 {
      if a[0] == b[0] && Subsequence(a[1..], b[1..]) {
        SubsequenceMembers(a[1..], b[1..]);
        assert forall x :: x in a ==> x == a[0] || x in a[1..];
      } else {
        SubsequenceMembers(a, b[1..]);
      }
    }
  }

  /** `s.filter(p)`. */
  function Filter<T(==,!new)>(s: seq<T>, p: T -> bool): (r: seq<T>)
    ensures |r| <= |s|
    ensures forall x :: x in r <==> x in s && p(x)
    ensures forall i :: 0 <= i < |r| ==> p(r[i])
    ensures Subsequence(r, s)
  {
    if |s| == 0 then []
    else
      var rest := Filter(s[1..], p);
      assert forall x :: x in s <==> x == s[0] || x in s[1..];
      if p(s[0]) then
        assert ([s[0]] + rest)[1..] == rest;
        [s[0]] + rest
      else
        SubsequenceSkip(rest, s);
        rest
  }

  lemma SubsequenceSkip<T>(a: seq<T>, b: seq<T>)
    requires |b| > 0 && Subsequence(a, b[1..])
    ensures Subsequence(a, b)
  {
  }

  /** A filter whose predicate holds everywhere keeps the whole sequence. */
  lemma {:induction false} FilterKeepsAll<T(!new)>(s: seq<T>, p: T -> bool)
    requires forall i :: 0 <= i < |s| ==> p(s[i])
    ensures Filter(s, p) == s
    decreases |s|
  {
    if |s| > 0 {
      FilterKeepsAll(s[1..], p);
      assert [s[0]] + s[1..] == s;
    }
  }

  /** The predicate `f(x) != null` used by `.filter(Boolean)` after a `map`. */
  function Decodes<A, B>(f: A -> Option<B>): A -> bool {
    x => f(x).Some?
  }

  /** `s.map(f).filter(Boolean)`: the successful results of `f`, in the order
      of their inputs. */
  function Keep<A(==,!new), B(==,!new)>(s: seq<A>, f: A -> Option<B>): (r: seq<B>)
    ensures |r| == |Filter(s, Decodes(f))|
    ensures forall i :: 0 <= i < |r| ==> f(Filter(s, Decodes(f))[i]) == Some(r[i])
    ensures forall y :: y in r <==> exists x :: x in s && f(x) == Some(y)
  {
    if |s| == 0 then []
    else
      var rest := Keep(s[1..], f);
      assert forall x :: x in s <==> x == s[0] || x in s[1..];
      match f(s[0])
      case Some(y) =>
        assert Decodes(f)(s[0]);
        assert Filter(s, Decodes(f)) == [s[0]] + Filter(s[1..], Decodes(f));
        [y] + rest
      case None =>
        assert !Decodes(f)(s[0]);
        rest
  }

  /** `Keep` distributes over concatenation: the results of `a + b` are
      those of `a` followed by those of `b`. */
  lemma {:induction false} KeepAppend<A(!new), B(!new)>(a: seq<A>, b: seq<A>, f: A -> Option<B>)
    ensures Keep(a + b, f) == Keep(a, f) + Keep(b, f)
    decreases |a|
  {
    if |a| == 0 {
      assert a + b == b;
    } else {
      assert (a + b)[0] == a[0];
      assert (a + b)[1..] == a[1..] + b;
      KeepAppend(a[1..], b, f);
    }
  }

  /** One input contributes its result when `f` succeeds on it and nothing
      otherwise; with `KeepAppend` this fixes `Keep` on every sequence. */
  lemma KeepOne<A(!new), B(!new)>(x: A, f: A -> Option<B>)
    ensures Keep([x], f) == (if f(x).Some? then [f(x).value] else [])
  {
    assert [x][1..] == [];
  }

  /** `ss.flat()`. */
  function Flatten<T(==,!new)>(ss: seq<seq<T>>): (r: seq<T>)
    ensures forall x :: x in r <==> exists i :: 0 <= i < |ss| && x in ss[i]
  {
    if |ss| == 0 then []
    else
      var rest := Flatten(ss[1..]);
      assert forall i :: 1 <= i < |ss| ==> ss[i] == ss[1..][i - 1];
      ss[0] + rest
  }

  function MapSeq<A, B>(s: seq<A>, f: A -> B): (r: seq<B>)
    ensures |r| == |s|
    ensures forall i :: 0 <= i < |s| ==> r[i] == f(s[i])
  {
    seq(|s|, i requires 0 <= i < |s| => f(s[i]))
  }

  /** A filter keeps the first element exactly when the predicate holds of it. */
  lemma FilterHeadKept<T(!new)>(s: seq<T>, p: T -> bool)
    requires |s| > 0 && p(s[0])
    ensures Filter(s, p) == [s[0]] + Filter(s[1..], p)
  {
  }

  lemma FilterHeadDropped<T(!new)>(s: seq<T>, p: T -> bool)
    requires |s| > 0 && !p(s[0])
    ensures Filter(s, p) == Filter(s[1..], p)
  {
  }

  /** Adding an element to one of three parts of `t` gives three parts of
      `[h] + t`. */
  lemma AddHead3<T>(h: T, t: seq<T>, a: seq<T>, b: seq<T>, c: seq<T>)
    requires multiset(a) + multiset(b) + multiset(c) == multiset(t)
    ensures multiset([h] + a) + multiset(b) + multiset(c) == multiset([h] + t)
    ensures multiset(a) + multiset([h] + b) + multiset(c) == multiset([h] + t)
    ensures multiset(a) + multiset(b) + multiset([h] + c) == multiset([h] + t)
  {
  }

  /** Exactly one of three predicates holds of `x`. */
  predicate OneOf3<T>(x: T, p: T -> bool, q: T -> bool, r: T -> bool) {
    (p(x) && !q(x) && !r(x)) || (!p(x) && q(x) && !r(x)) || (!p(x) && !q(x) && r(x))
  }

  /** Three filters whose predicates split the elements between them
      split the sequence: together they hold every element as often as it
      occurs. */
  lemma {:induction false} FilterPartition3<T(!new)>(s: seq<T>, p: T -> bool, q: T -> bool, r: T -> bool)
    requires forall i :: 0 <= i < |s| ==> OneOf3(s[i], p, q, r)
    decreases |s|
    ensures multiset(Filter(s, p)) + multiset(Filter(s, q)) + multiset(Filter(s, r)) == multiset(s)
  {
    if |s| > 0 {
      var h, t := s[0], s[1..];
      assert forall i :: 0 <= i < |t| ==> t[i] == s[i + 1];
      FilterPartition3(t, p, q, r);
      assert OneOf3(h, p, q, r);
      var tp, tq, tr := Filter(t, p), Filter(t, q), Filter(t, r);
      if p(h) {
        FilterHeadKept(s, p);
        FilterHeadDropped(s, q);
        FilterHeadDropped(s, r);
      } else if q(h) {
        FilterHeadDropped(s, p);
        FilterHeadKept(s, q);
        FilterHeadDropped(s, r);
      } else {
        FilterHeadDropped(s, p);
        FilterHeadDropped(s, q);
        FilterHeadKept(s, r);
      }
      AddHead3(h, t, tp, tq, tr);
      assert s == [h] + t;
    }
  }

  /** Filtering distributes over concatenation. */
  lemma {:induction false} FilterAppend<T(!new)>(a: seq<T>, b: seq<T>, p: T -> bool)
    ensures Filter(a + b, p) == Filter(a, p) + Filter(b, p)
  {
    if |a| == 0 {
      assert a + b == b;
    } else {
      assert (a + b)[1..] == a[1..] + b;
      FilterAppend(a[1..], b, p);
    }
  }

  /** The elements of a mapped sequence are the images of the elements. */
  lemma MapSeqMembers<A, B>(s: seq<A>, f: A -> B)
    ensures forall y :: y in MapSeq(s, f) <==> exists x :: x in s && f(x) == y
  {
    var r := MapSeq(s, f);
    forall y
      ensures y in r <==> exists x :: x in s && f(x) == y
    {
      if y in r {
        var k :| 0 <= k < |r| && r[k] == y;
        assert s[k] in s;
      }
      if exists x :: x in s && f(x) == y {
        var x :| x in s && f(x) == y;
        var k :| 0 <= k < |s| && s[k] == x;
        assert r[k] == y;
      }
    }
  }

  ghost predicate NoDuplicates<T>(s: seq<T>) {
    forall i, j :: 0 <= i < j < |s| ==> s[i] != s[j]
  }

  /** Filtering a list without repeats leaves a list without repeats. */
  lemma {:induction false} FilterNoDuplicates<T(!new)>(s: seq<T>, p: T -> bool)
    requires NoDuplicates(s)
    ensures NoDuplicates(Filter(s, p))
  {
    if |s| > 0 {
      var rest := Filter(s[1..], p);
      assert NoDuplicates(s[1..]) by {
        forall i, j | 0 <= i < j < |s[1..]|
          ensures s[1..][i] != s[1..][j]
        {
          assert s[1..][i] == s[i + 1] && s[1..][j] == s[j + 1];
        }
      }
      FilterNoDuplicates(s[1..], p);
      if p(s[0]) {
        assert s[0] !in s[1..];
        var r := [s[0]] + rest;
        forall i, j | 0 <= i < j < |r|
          ensures r[i] != r[j]
        {
          if i == 0 {
            assert r[j] == rest[j - 1] && r[j] in rest;
          } else {
            assert r[i] == rest[i - 1] && r[j] == rest[j - 1];
          }
        }
      }
    }
  }
}
