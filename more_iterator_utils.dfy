/**
 * MoreIteratorUtils.removeIf: drain an iterator, removing through it every
 * element the predicate accepts.
 */
module MoreIteratorUtils {
  import opened JavaLang
  import opened JavaCollections
  import opened Sequences

  /**
   * removeIf(iterator, predicate): the elements already passed stay; of the
   * remaining ones, exactly those the predicate rejects stay, in order. Each
   * remaining element is tested once, in iteration order, and the iterator
   * ends exhausted.
   */
  method RemoveIf<T>(iter: ListIterator<T>, pred: Predicate<T>)
    requires iter.Valid()
    modifies iter, iter.list, pred
    ensures iter.Valid() && !iter.HasNext()
    ensures iter.list.elements
         == old(iter.list.elements[..iter.cursor])
          + Reject(old(iter.list.elements[iter.cursor..]), pred.test)
    ensures pred.tested == old(pred.tested) + old(iter.list.elements[iter.cursor..])
  {
    ghost var passed := iter.list.elements[..iter.cursor];
    ghost var rest := iter.list.elements[iter.cursor..];
    ghost var tested := pred.tested;
    ghost var k := 0;
    ghost var kept: seq<T> := [];
    assert iter.list.elements == passed + kept + rest[k..];
    while iter.HasNext()
      invariant iter.Valid()
      invariant 0 <= k <= |rest|
      invariant kept == Reject(rest[..k], pred.test)
      invariant iter.list.elements == passed + kept + rest[k..]
      invariant iter.cursor == |passed| + |kept|
      invariant pred.tested == tested + rest[..k]
      decreases |rest| - k
    {
      ghost var before := iter.list.elements;
      CursorElement(before, passed, kept, rest, k);
      var removed := TestAndRemove(iter, pred);
      LoopStep(before, iter.list.elements, passed, kept, rest, k, removed);
      RejectSnoc(rest, k, pred.test);
      kept := kept + (if removed then [] else [rest[k]]);
      k := k + 1;
      assert pred.tested == tested + rest[..k];
    }
    assert rest[..k] == rest;
  }

  /**
   * One turn of the loop: take the next element, test it, and remove it
   * through the iterator when the predicate accepts it.
   */
  method TestAndRemove<T>(iter: ListIterator<T>, pred: Predicate<T>) returns (removed: bool)
    requires iter.Valid() && iter.HasNext()
    modifies iter, iter.list, pred
    ensures iter.Valid()
    ensures removed == pred.test(old(iter.list.elements[iter.cursor]))
    ensures pred.tested == old(pred.tested) + [old(iter.list.elements[iter.cursor])]
    ensures removed ==> iter.cursor == old(iter.cursor)
                        && iter.list.elements == old(iter.list.elements[..iter.cursor] + iter.list.elements[iter.cursor + 1..])
    ensures !removed ==> iter.cursor == old(iter.cursor) + 1 && iter.list.elements == old(iter.list.elements)
  {
    var next := iter.Next();
    assert next.Ok? && iter.lastRet >= 0;
    removed := pred.Test(next.value);
    if removed {
      var _ := iter.Remove();
    }
  }

  /** The element under the cursor is the k-th of the remaining ones. */
  lemma CursorElement<T>(elements: seq<T>, passed: seq<T>, kept: seq<T>, rest: seq<T>, k: nat)
    requires k < |rest|
    requires elements == passed + kept + rest[k..]
    ensures elements[|passed| + |kept|] == rest[k]
    ensures rest[..k + 1] == rest[..k] + [rest[k]]
  {
  }

  /** Removing the element under the cursor, or stepping over it, keeps the loop's shape. */
  lemma LoopStep<T>(before: seq<T>, after: seq<T>, passed: seq<T>, kept: seq<T>, rest: seq<T>, k: nat, removed: bool)
    requires k < |rest|
    requires before == passed + kept + rest[k..]
    requires removed ==> after == before[..|passed| + |kept|] + before[|passed| + |kept| + 1..]
    requires !removed ==> after == before
    ensures after == passed + (kept + (if removed then [] else [rest[k]])) + rest[k + 1..]
  {
    assert rest[k..] == [rest[k]] + rest[k + 1..];
  }
}
