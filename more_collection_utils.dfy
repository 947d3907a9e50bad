/**
 * MoreCollectionUtils: building, sizing, indexing and querying collections.
 * A collection that is only read is modelled by the sequence of its
 * elements in iteration order; one that is added to is a Collection, whose
 * kind says how add behaves. A null collection or predicate is None.
 */
module MoreCollectionUtils {
  import opened JavaLang
  import opened JavaCollections
  import opened Sequences

  /**
   * collect(ctor, elements) (deprecated): the collection the supplier makes,
   * with the elements added in order by CollectionUtils.addAll. A null
   * supplier, or a supplier that makes null, gives null; a null elements array
   * throws once there is a collection to add to; what add throws (an
   * unmodifiable collection) is passed on. `ctor` is the supplier, as what it
   * constructs.
   */
  method Collect<T(==)>(ctor: Option<Option<Constructed<T>>>, elements: Option<seq<T>>) returns (r: Result<Collection?<T>>)
    ensures ctor.None? || ctor.value.None? ==> r == Ok(null)
    ensures ctor.Some? && ctor.value.Some? && elements.None? ==> r == Err(NullPointerException)
    ensures ctor.Some? && ctor.value.Some? && elements.Some? ==>
              var made := ctor.value.value;
              var added := AddAllTo(made.kind, made.initial, elements.value);
              (added.Ok? ==> r.Ok? && r.value != null && fresh(r.value)
                             && r.value.kind == made.kind && r.value.elements == added.value)
              && (added.Err? ==> r == Err(added.error))
  {
    if ctor.None? || ctor.value.None? {
      return Ok(null);
    }
    var made := ctor.value.value;
    var collection := new Collection(made.kind, made.initial);
    if elements.None? {
      return Err(NullPointerException);
    }
    var added := collection.AddAll(elements.value);
    if added.Err? {
      return Err(added.error);
    }
    r := Ok(collection);
  }

  /**
   * collectExact(ctor, elements): null for a null ctor; for a null elements
   * array, whatever ctor.get(0) makes, untouched; otherwise the collection
   * made for exactly |elements|, with the elements added in order by
   * Collections.addAll (or null if the ctor made null); what add throws is
   * passed on. `ctor` maps the requested size to what it constructs.
   */
  method CollectExact<T(==)>(ctor: Option<nat -> Option<Constructed<T>>>, elements: Option<seq<T>>) returns (r: Result<Collection?<T>>)
    ensures ctor.None? ==> r == Ok(null)
    ensures ctor.Some? && elements.None? ==>
              (ctor.value(0).None? ==> r == Ok(null))
              && (ctor.value(0).Some? ==> r.Ok? && r.value != null && fresh(r.value)
                                          && r.value.kind == ctor.value(0).value.kind
                                          && r.value.elements == ctor.value(0).value.initial)
    ensures ctor.Some? && elements.Some? && ctor.value(|elements.value|).None? ==> r == Ok(null)
    ensures ctor.Some? && elements.Some? && ctor.value(|elements.value|).Some? ==>
              var made := ctor.value(|elements.value|).value;
              var added := AddAllTo(made.kind, made.initial, elements.value);
              (added.Ok? ==> r.Ok? && r.value != null && fresh(r.value)
                             && r.value.kind == made.kind && r.value.elements == added.value)
              && (added.Err? ==> r == Err(added.error))
  {
    if ctor.None? {
      return Ok(null);
    }
    var size := if elements.None? then 0 else |elements.value|;
    var made := ctor.value(size);
    if made.None? {
      return Ok(null);
    }
    var collection := new Collection(made.value.kind, made.value.initial);
    if elements.None? {
      return Ok(collection);
    }
    var added := collection.AddAll(elements.value);
    if added.Err? {
      return Err(added.error);
    }
    r := Ok(collection);
  }

  /**
   * anyMatch(collection, predicate) (deprecated): false for a null predicate
   * (the doc comment promises true), false for a null collection, and
   * otherwise whether some element passes.
   */
  function AnyMatch<T>(collection: Option<seq<T>>, test: Option<T -> bool>): (r: bool)
    ensures test.None? ==> !r
    ensures collection.None? ==> !r
  {
    test.Some? && collection.Some?
    && exists i | 0 <= i < |collection.value| :: test.value(collection.value[i])
  }

  /**
   * allMatch(collection, predicate) (deprecated): false for a null predicate
   * (the doc comment promises true), true for a null collection, and
   * otherwise whether every element passes.
   */
  function AllMatch<T>(collection: Option<seq<T>>, test: Option<T -> bool>): (r: bool)
    ensures test.None? ==> !r
    ensures test.Some? && collection.None? ==> r
  {
    test.Some?
    && (collection.Some? ==> forall i | 0 <= i < |collection.value| :: test.value(collection.value[i]))
  }

  /** numberOfMatches(collection, matcher) (deprecated): 0 for a null matcher or collection, else the count. */
  function NumberOfMatches<T>(collection: Option<seq<T>>, matcher: Option<T -> bool>): (r: nat)
    ensures matcher.None? || collection.None? ==> r == 0
    ensures collection.Some? ==> r <= |collection.value|
  {
    if matcher.None? || collection.None? then 0 else Count(collection.value, matcher.value)
  }

  /**
   * The three queries agree: for a non-null predicate, anyMatch holds exactly
   * when numberOfMatches is positive, and allMatch exactly when it counts
   * every element.
   */
  lemma MatchQueriesAgree<T>(collection: seq<T>, test: T -> bool)
    ensures AnyMatch(Some(collection), Some(test)) <==> NumberOfMatches(Some(collection), Some(test)) > 0
    ensures AllMatch(Some(collection), Some(test)) <==> NumberOfMatches(Some(collection), Some(test)) == |collection|
  {
    CountPositive(collection, test);
    CountAll(collection, test);
  }

  /** isSafeIndex(collection, index): a non-null collection and 0 <= index < size. */
  function IsSafeIndex<T>(collection: Option<seq<T>>, index: i32): (r: bool)
    ensures r <==> collection.Some? && 0 <= index as int < |collection.value|
  {
    collection.Some? && index >= 0 && (index as int) < |collection.value|
  }

  /**
   * getElement(collection, index) as written: the guard is inverted, so a safe
   * index yields null and every unsafe index reaches IterableUtils.get, which
   * throws IndexOutOfBoundsException (negative index, null collection or
   * index past the end).
   */
  function GetElementAsWritten<T>(collection: Option<seq<T>>, index: i32): (r: Result<Option<T>>)
    ensures r.Ok? <==> IsSafeIndex(collection, index)
    ensures r.Ok? ==> r.value.None?
    ensures r.Err? ==> r.error == IndexOutOfBoundsException
  {
    if IsSafeIndex(collection, index) then Ok(None) else Err(IndexOutOfBoundsException)
  }

  /** As written, getElement never returns an element: on [x] at index 0 it yields null. */
  lemma GetElementAsWrittenLosesElement<T>(x: T)
    ensures GetElementAsWritten(Some([x]), 0) == Ok(None)
    ensures GetElementAsWritten(Some([x]), 1).Err?
  {
  }

  /**
   * getElement as its doc comment describes it: the element at a safe index,
   * null otherwise, and never an exception.
   */
  function GetElement<T>(collection: Option<seq<T>>, index: i32): (r: Option<T>)
    ensures r.Some? <==> IsSafeIndex(collection, index)
    ensures r.Some? ==> r.value == collection.value[index]
  {
    if IsSafeIndex(collection, index) then Some(collection.value[index]) else None
  }

  /**
   * ensureMinimumSize(collection, minimumSize, defaultElement): calls add
   * with defaultElement max(minimumSize, 0) - size times. A list grows to that
   * size and keeps its old elements first; a set gains defaultElement at most
   * once; an unmodifiable collection throws on the first add, if there is
   * one, and stays as it is.
   */
  method EnsureMinimumSize<T(==)>(collection: Collection<T>, minimumSize: i32, defaultElement: T) returns (r: Result<()>)
    modifies collection
    ensures collection.kind.ListKind? ==>
              r == Ok(())
              && |collection.elements| == (if |old(collection.elements)| < minimumSize as int then minimumSize as int
                                           else |old(collection.elements)|)
              && collection.elements[..|old(collection.elements)|] == old(collection.elements)
              && forall i | |old(collection.elements)| <= i < |collection.elements| :: collection.elements[i] == defaultElement
    ensures collection.kind.SetKind? ==>
              r == Ok(())
              && collection.elements ==
                   if minimumSize as int <= |old(collection.elements)| || defaultElement in old(collection.elements)
                   then old(collection.elements)
                   else old(collection.elements) + [defaultElement]
    ensures collection.kind.UnmodifiableKind? ==>
              collection.elements == old(collection.elements)
              && (r.Err? <==> |old(collection.elements)| < minimumSize as int)
              && (r.Err? ==> r.error == UnsupportedOperationException)
  {
    var sizeDelta := (if minimumSize < 0 then 0 else minimumSize as int) - collection.Size();
    if sizeDelta > 0 {
      for i := 0 to sizeDelta
        invariant AddAllTo(collection.kind, old(collection.elements), Repeat(defaultElement, i)) == Ok(collection.elements)
      {
        assert Repeat(defaultElement, i + 1)[..i] == Repeat(defaultElement, i);
        var added := collection.Add(defaultElement);
        if added.Err? {
          AddAllToUnmodifiable(old(collection.elements), Repeat(defaultElement, i));
          return Err(added.error);
        }
      }
      // an unmodifiable collection has returned from the loop on its first add
      if collection.kind.ListKind? {
        AddAllToList(old(collection.elements), Repeat(defaultElement, sizeDelta));
      } else if collection.kind.SetKind? {
        AddAllToSetRepeat(old(collection.elements), defaultElement, sizeDelta);
      }
    }
    r := Ok(());
  }

  /**
   * removeLastElement(list): null, and nothing changes, for a null or empty
   * list; otherwise removes the last element and returns it.
   */
  method RemoveLastElement<T>(list: ArrayList?<T>) returns (r: Option<T>)
    modifies list
    ensures list == null ==> r.None?
    ensures list != null && |old(list.elements)| == 0 ==> r.None? && list.elements == old(list.elements)
    ensures list != null && |old(list.elements)| > 0 ==>
              r == Some(old(list.elements[|list.elements| - 1]))
              && list.elements == old(list.elements[..|list.elements| - 1])
  {
    if list == null || list.Size() == 0 {
      return None;
    }
    var x := list.RemoveAt(list.Size() - 1);
    r := Some(x);
  }
}
