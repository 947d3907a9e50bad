/**
 * MoreIterableUtils.removeIf: removeIf over a fresh iterator of the iterable.
 */
module MoreIterableUtils {
  import opened JavaLang
  import opened JavaCollections
  import opened Sequences
  import MoreIteratorUtils

  /**
   * removeIf(iterable, predicate): afterwards the list holds exactly the
   * elements the predicate rejects, in their original order, and nothing
   * else; every element was tested once, in order.
   */
  method RemoveIf<T>(iterable: ArrayList<T>, pred: Predicate<T>)
    modifies iterable, pred
    ensures iterable.elements == Reject(old(iterable.elements), pred.test)
    ensures pred.tested == old(pred.tested) + old(iterable.elements)
    ensures |iterable.elements| == |old(iterable.elements)| - Count(old(iterable.elements), pred.test)
    ensures forall x :: x in iterable.elements <==> x in old(iterable.elements) && !pred.test(x)
  {
    var iter := new ListIterator(iterable);
    MoreIteratorUtils.RemoveIf(iter, pred);
    assert old(iterable.elements)[..0] == [];
    assert old(iterable.elements)[0..] == old(iterable.elements);
    RejectLength(old(iterable.elements), pred.test);
    forall x {
      RejectMembership(old(iterable.elements), pred.test, x);
    }
  }
}
