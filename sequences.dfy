/** Array.prototype.filter and Array.prototype.map on sequences, and what
    "order-preserving sublist" means. Both list filters of the bot are
    instances of Keep. */
module Sequences {

  /** `a` is obtained from `b` by deleting elements, keeping the order of the rest. */
  predicate IsSubsequence<T(==)>(a: seq<T>, b: seq<T>)
    decreases |b|
  {
    if a == [] then true
    else if b == [] then false
    else (a[0] == b[0] && IsSubsequence(a[1..], b[1..])) || IsSubsequence(a, b[1..])
  }

  /** `s.map(f)`. */
  function Map<A, B>(s: seq<A>, f: A -> B): (r: seq<B>)
    ensures |r| == |s|
    ensures forall i :: 0 <= i < |s| ==> r[i] == f(s[i])
  {
    if s == [] then [] else [f(s[0])] + Map(s[1..], f)
  }

  /** Mapping a prefix gives the prefix of the mapped list. */
  lemma MapPrefix<A, B>(s: seq<A>, f: A -> B, i: nat)
    requires i <= |s|
    ensures Map(s, f)[..i] == Map(s[..i], f)
  {
    var whole, prefix := Map(s, f)[..i], Map(s[..i], f);
    forall j | 0 <= j < i ensures whole[j] == prefix[j] {
      assert s[..i][j] == s[j];
    }
  }

  /** `piece` stands in `s` starting at position `at`. */
  predicate OccursAt<T(==)>(s: seq<T>, at: nat, piece: seq<T>)
  {
    at + |piece| <= |s| && s[at..at + |piece|] == piece
  }

  /** What stands in `body` right after `before` stands in `head + body`
      right after `head + before`. */
  lemma OccursAfter<T>(text: seq<T>, head: seq<T>, body: seq<T>, before: seq<T>, piece: seq<T>)
    requires text == head + body && OccursAt(body, |before|, piece)
    ensures OccursAt(text, |head + before|, piece)
  {
    var at := |head + before|;
    assert text[at..at + |piece|] == body[|before|..|before| + |piece|];
  }

  /** The last element of `s`. */
  function Last<T>(s: seq<T>): T
    requires s != []
  {
    s[|s| - 1]
  }

  /** `s` ends with `piece`. */
  predicate EndsWith<T(==)>(s: seq<T>, piece: seq<T>)
  {
    |piece| <= |s| && s[|s| - |piece|..] == piece
  }

  /** `s.filter(p)`. */
  function Keep<T>(s: seq<T>, p: T -> bool): (r: seq<T>)
    ensures |r| <= |s|
    ensures forall i :: 0 <= i < |r| ==> p(r[i])
  {
    if s == [] then []
    else if p(s[0]) then [s[0]] + Keep(s[1..], p)
    else Keep(s[1..], p)
  }

  /** The filter keeps every element satisfying `p`, as often as it occurs,
      and nothing else. */
  lemma {:induction false} KeepCounts<T>(s: seq<T>, p: T -> bool)
    ensures forall x :: multiset(Keep(s, p))[x] == if p(x) then multiset(s)[x] else 0
  {
    if s != [] {
      KeepCounts(s[1..], p);
      assert s == [s[0]] + s[1..];
    }
  }

  lemma KeepMembership<T>(s: seq<T>, p: T -> bool)
    ensures forall x :: x in Keep(s, p) <==> x in s && p(x)
  {
    KeepCounts(s, p);
    forall x ensures x in Keep(s, p) <==> x in s && p(x) {
      assert x in Keep(s, p) <==> multiset(Keep(s, p))[x] > 0;
      assert x in s <==> multiset(s)[x] > 0;
    }
  }

  /** The filter result is an order-preserving sublist of its input. */
  lemma {:induction false} KeepIsSubsequence<T>(s: seq<T>, p: T -> bool)
    ensures IsSubsequence(Keep(s, p), s)
  {
    if s != [] {
      KeepIsSubsequence(s[1..], p);
      if !p(s[0]) && Keep(s, p) != [] {
        assert Keep(s, p) == Keep(s[1..], p);
      }
    }
  }

  /** Filtering twice by the same predicate changes nothing the second time. */
  lemma {:induction false} KeepIdempotent<T>(s: seq<T>, p: T -> bool)
    ensures Keep(Keep(s, p), p) == Keep(s, p)
  {
    if s != [] {
      KeepIdempotent(s[1..], p);
      if p(s[0]) {
        assert ([s[0]] + Keep(s[1..], p))[1..] == Keep(s[1..], p);
      }
    }
  }

  /** Two filters may be applied in either order. */
  lemma {:induction false} KeepCommutes<T>(s: seq<T>, p: T -> bool, q: T -> bool)
    ensures Keep(Keep(s, p), q) == Keep(Keep(s, q), p)
  {
    if s != [] {
      KeepCommutes(s[1..], p, q);
      var kp, kq := Keep(s[1..], p), Keep(s[1..], q);
      if p(s[0]) {
        assert ([s[0]] + kp)[1..] == kp;
      }
      if q(s[0]) {
        assert ([s[0]] + kq)[1..] == kq;
      }
    }
  }

  /** Filtering a sequence whose every element already passes is the identity. */
  lemma {:induction false} KeepAllPass<T>(s: seq<T>, p: T -> bool)
    requires forall i :: 0 <= i < |s| ==> p(s[i])
    ensures Keep(s, p) == s
  {
    if s != [] {
      KeepAllPass(s[1..], p);
    }
  }
}
