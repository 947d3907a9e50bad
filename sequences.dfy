/**
 * Specification functions over sequences, used to state what the collection
 * helpers compute: counting the elements a predicate accepts, and keeping
 * the elements it rejects.
 */
module Sequences {

  /** The number of elements of s that p accepts. */
  function Count<T>(s: seq<T>, p: T -> bool): (n: nat)
    ensures n <= |s|
  {
    if s == [] then 0
    else Count(s[..|s| - 1], p) + (if p(s[|s| - 1]) then 1 else 0)
  }

  /** The elements of s that p rejects, in their original order. */
  function Reject<T>(s: seq<T>, p: T -> bool): (r: seq<T>)
    ensures |r| <= |s|
  {
    if s == [] then []
    else Reject(s[..|s| - 1], p) + (if p(s[|s| - 1]) then [] else [s[|s| - 1]])
  }

  /** Extending the input by one element extends the survivors by that element exactly when p rejects it. */
  lemma RejectSnoc<T>(s: seq<T>, k: nat, p: T -> bool)
    requires k < |s|
    ensures Reject(s[..k + 1], p) == Reject(s[..k], p) + (if p(s[k]) then [] else [s[k]])
  {
    assert s[..k + 1][..k] == s[..k];
  }

  /** An element survives Reject exactly when it occurs in s and p rejects it. */
  lemma {:induction false} RejectMembership<T>(s: seq<T>, p: T -> bool, x: T)
    ensures x in Reject(s, p) <==> x in s && !p(x)
  {
    if s != [] {
      var init := s[..|s| - 1];
      RejectMembership(init, p, x);
      assert s == init + [s[|s| - 1]];
    }
  }

  /** Reject removes exactly the Count(s, p) accepted elements. */
  lemma {:induction false} RejectLength<T>(s: seq<T>, p: T -> bool)
    ensures |Reject(s, p)| == |s| - Count(s, p)
  {
    if s != [] {
      RejectLength(s[..|s| - 1], p);
    }
  }

  /** Reject works piecewise, so the survivors keep their relative order. */
  lemma {:induction false} RejectAppend<T>(a: seq<T>, b: seq<T>, p: T -> bool)
    ensures Reject(a + b, p) == Reject(a, p) + Reject(b, p)
    decreases |b|
  {
    if b == [] {
      assert a + b == a;
    } else {
      var binit := b[..|b| - 1];
      assert (a + b)[..|a + b| - 1] == a + binit;
      RejectAppend(a, binit, p);
    }
  }

  /** Count works piecewise. */
  lemma {:induction false} CountAppend<T>(a: seq<T>, b: seq<T>, p: T -> bool)
    ensures Count(a + b, p) == Count(a, p) + Count(b, p)
    decreases |b|
  {
    if b == [] {
      assert a + b == a;
    } else {
      assert (a + b)[..|a + b| - 1] == a + b[..|b| - 1];
      CountAppend(a, b[..|b| - 1], p);
    }
  }

  /** Some element is accepted exactly when the count is positive. */
  lemma {:induction false} CountPositive<T>(s: seq<T>, p: T -> bool)
    ensures Count(s, p) > 0 <==> exists i | 0 <= i < |s| :: p(s[i])
  {
    if s != [] {
      var init := s[..|s| - 1];
      CountPositive(init, p);
      if Count(init, p) > 0 {
        var i :| 0 <= i < |init| && p(init[i]);
        assert p(s[i]);
      }
      if exists i | 0 <= i < |s| :: p(s[i]) {
        var i :| 0 <= i < |s| && p(s[i]);
        if i < |init| {
          assert p(init[i]);
        }
      }
    }
  }

  /** Every element is accepted exactly when the count is the length. */
  lemma {:induction false} CountAll<T>(s: seq<T>, p: T -> bool)
    ensures Count(s, p) == |s| <==> forall i | 0 <= i < |s| :: p(s[i])
  {
    if s != [] {
      var init := s[..|s| - 1];
      CountAll(init, p);
      if forall i | 0 <= i < |s| :: p(s[i]) {
        assert forall i | 0 <= i < |init| :: p(init[i]) by {
          forall i | 0 <= i < |init| ensures p(init[i]) {
            assert init[i] == s[i];
          }
        }
      }
    }
  }
}
