/**
 * The java.util objects that the modelled code changes in place: a general
 * collection (a list, a set or an unmodifiable collection), an array list
 * and its iterator, a hash map, a hash set, and the functional interfaces
 * Predicate and Consumer, which record the calls made on them.
 */
module JavaCollections {
  import opened JavaLang

  // ------------------------------------------------------------
  // java.util.Collection and its add
  // ------------------------------------------------------------

  /**
   * How a collection answers add: a list appends, a set appends only an
   * element it does not hold yet, and an unmodifiable collection throws.
   */
  datatype CollectionKind = ListKind | SetKind | UnmodifiableKind

  /** What a collection constructor makes: a new collection of some kind holding some initial elements. */
  datatype Constructed<T> = Constructed(kind: CollectionKind, initial: seq<T>)

  /** Collection.add on contents given in iteration order: the new contents, or what add throws. */
  function AddTo<T(==)>(kind: CollectionKind, elements: seq<T>, x: T): Result<seq<T>>
  {
    match kind
    case ListKind => Ok(elements + [x])
    case SetKind => if x in elements then Ok(elements) else Ok(elements + [x])
    case UnmodifiableKind => Err(UnsupportedOperationException)
  }

  /**
   * Collections.addAll (and commons-collections' CollectionUtils.addAll): add
   * the elements one at a time, in order; the first exception ends the call.
   */
  function AddAllTo<T(==)>(kind: CollectionKind, elements: seq<T>, xs: seq<T>): Result<seq<T>>
  {
    if xs == [] then Ok(elements)
    else
      match AddAllTo(kind, elements, xs[..|xs| - 1])
      case Err(e) => Err(e)
      case Ok(before) => AddTo(kind, before, xs[|xs| - 1])
  }

  /** n copies of x. */
  function Repeat<T>(x: T, n: nat): (r: seq<T>)
    ensures |r| == n && forall i | 0 <= i < n :: r[i] == x
  {
    seq(n, _ => x)
  }

  /** A list keeps every added element, duplicates included, after the old ones. */
  lemma {:induction false} AddAllToList<T>(elements: seq<T>, xs: seq<T>)
    ensures AddAllTo(ListKind, elements, xs) == Ok(elements + xs)
  {
    if xs != [] {
      var init := xs[..|xs| - 1];
      AddAllToList(elements, init);
      assert xs == init + [xs[|xs| - 1]];
      assert elements + init + [xs[|xs| - 1]] == elements + xs;
    } else {
      assert elements + xs == elements;
    }
  }

  /** An unmodifiable collection throws on the first add, so addAll fails exactly when there is something to add. */
  lemma {:induction false} AddAllToUnmodifiable<T>(elements: seq<T>, xs: seq<T>)
    ensures AddAllTo(UnmodifiableKind, elements, xs) ==
              if xs == [] then Ok(elements) else Err(UnsupportedOperationException)
  {
    if xs != [] {
      AddAllToUnmodifiable(elements, xs[..|xs| - 1]);
    }
  }

  predicate Distinct<T(==)>(s: seq<T>)
  {
    forall i, j | 0 <= i < j < |s| :: s[i] != s[j]
  }

  /**
   * A set never throws; it ends up holding exactly the old elements and the
   * added ones, keeps the old ones first, and holds no element twice when it
   * did not before.
   */
  lemma {:induction false} AddAllToSet<T>(elements: seq<T>, xs: seq<T>)
    ensures var r := AddAllTo(SetKind, elements, xs);
      && r.Ok?
      && (forall y :: y in r.value <==> y in elements || y in xs)
      && |elements| <= |r.value| && r.value[..|elements|] == elements
      && (Distinct(elements) ==> Distinct(r.value))
  {
    if xs != [] {
      var init := xs[..|xs| - 1];
      var x := xs[|xs| - 1];
      AddAllToSet(elements, init);
      assert xs == init + [x];
      var before := AddAllTo(SetKind, elements, init).value;
      if x !in before {
        assert (before + [x])[..|elements|] == before[..|elements|];
      }
    }
  }

  /** Adding n > 0 copies of x to a set adds x once, and only when it is missing. */
  lemma {:induction false} AddAllToSetRepeat<T>(elements: seq<T>, x: T, n: nat)
    requires n > 0
    ensures AddAllTo(SetKind, elements, Repeat(x, n)) ==
              Ok(if x in elements then elements else elements + [x])
  {
    assert Repeat(x, n)[..n - 1] == Repeat(x, n - 1);
    if n > 1 {
      AddAllToSetRepeat(elements, x, n - 1);
    }
  }

  /** A java.util.Collection whose add behaves as its kind says, with its elements in iteration order. */
  class Collection<T(==)> {
    const kind: CollectionKind
    var elements: seq<T>

    constructor (kind: CollectionKind, initial: seq<T>)
      ensures this.kind == kind && elements == initial
    {
      this.kind := kind;
      elements := initial;
    }

    function Size(): nat
      reads this
    {
      |elements|
    }

    /**
     * Collection.add: true when the collection changed; a set that already
     * holds x stays as it is, and an unmodifiable collection throws.
     */
    method Add(x: T) returns (r: Result<bool>)
      modifies this
      ensures AddTo(kind, old(elements), x).Ok? ==>
                elements == AddTo(kind, old(elements), x).value && r == Ok(elements != old(elements))
      ensures AddTo(kind, old(elements), x).Err? ==>
                elements == old(elements) && r == Err(AddTo(kind, old(elements), x).error)
    {
      match kind
      case ListKind =>
        elements := elements + [x];
        assert |elements| != |old(elements)|;
        r := Ok(true);
      case SetKind =>
        if x in elements {
          r := Ok(false);
        } else {
          elements := elements + [x];
          assert |elements| != |old(elements)|;
          r := Ok(true);
        }
      case UnmodifiableKind =>
        r := Err(UnsupportedOperationException);
    }

    /**
     * Collections.addAll(this, xs): adds the elements in order; on an
     * exception nothing was added, since only an unmodifiable collection
     * throws and it throws on the first element.
     */
    method AddAll(xs: seq<T>) returns (r: Result<()>)
      modifies this
      ensures AddAllTo(kind, old(elements), xs).Ok? ==>
                r == Ok(()) && elements == AddAllTo(kind, old(elements), xs).value
      ensures AddAllTo(kind, old(elements), xs).Err? ==>
                r == Err(AddAllTo(kind, old(elements), xs).error) && elements == old(elements)
    {
      for i := 0 to |xs|
        invariant AddAllTo(kind, old(elements), xs[..i]) == Ok(elements)
      {
        assert xs[..i + 1][..i] == xs[..i];
        var added := Add(xs[i]);
        if added.Err? {
          AddAllToUnmodifiable(old(elements), xs[..i]);
          AddAllToUnmodifiable(old(elements), xs);
          return Err(added.error);
        }
      }
      assert xs[..|xs|] == xs;
      r := Ok(());
    }
  }

  /** java.util.ArrayList: a growable list. */
  class ArrayList<T> {
    var elements: seq<T>

    constructor (initial: seq<T>)
      ensures elements == initial
    {
      elements := initial;
    }

    function Size(): nat
      reads this
    {
      |elements|
    }

    /** List.remove(int): removes the element at index i and returns it. */
    method RemoveAt(i: nat) returns (x: T)
      requires i < |elements|
      modifies this
      ensures x == old(elements[i])
      ensures elements == old(elements[..i] + elements[i + 1..])
    {
      x := elements[i];
      elements := elements[..i] + elements[i + 1..];
    }
  }

  /**
   * The iterator an ArrayList hands out: a cursor at the next element, and the
   * index of the element last returned by Next (-1 once it is removed).
   */
  class ListIterator<T> {
    const list: ArrayList<T>
    var cursor: nat
    var lastRet: int

    predicate Valid()
      reads this, list
    {
      cursor <= |list.elements| && (lastRet == -1 || lastRet == cursor - 1)
    }

    /** Iterable.iterator(): a fresh iterator positioned before the first element. */
    constructor (list: ArrayList<T>)
      ensures this.list == list && cursor == 0 && lastRet == -1
      ensures Valid()
    {
      this.list := list;
      cursor := 0;
      lastRet := -1;
    }

    function HasNext(): bool
      reads this, list
    {
      cursor != |list.elements|
    }

    /** Iterator.next: the element under the cursor; NoSuchElementException past the end. */
    method Next() returns (r: Result<T>)
      requires Valid()
      modifies this
      ensures Valid()
      ensures old(HasNext()) ==> r == Ok(list.elements[old(cursor)]) && cursor == old(cursor) + 1 && lastRet == old(cursor)
      ensures !old(HasNext()) ==> r == Err(NoSuchElementException) && cursor == old(cursor) && lastRet == old(lastRet)
    {
      if cursor == |list.elements| {
        return Err(NoSuchElementException);
      }
      r := Ok(list.elements[cursor]);
      lastRet := cursor;
      cursor := cursor + 1;
    }

    /**
     * Iterator.remove: removes the element last returned by Next and steps the
     * cursor back onto its index; IllegalStateException when there is none.
     */
    method Remove() returns (r: Result<()>)
      requires Valid()
      modifies this, list
      ensures Valid()
      ensures old(lastRet) < 0 ==> r == Err(IllegalStateException) && list.elements == old(list.elements)
                                   && cursor == old(cursor) && lastRet == old(lastRet)
      ensures old(lastRet) >= 0 ==> r == Ok(()) && cursor == old(lastRet) && lastRet == -1
                                    && list.elements == old(list.elements[..lastRet] + list.elements[lastRet + 1..])
    {
      if lastRet < 0 {
        return Err(IllegalStateException);
      }
      var _ := list.RemoveAt(lastRet);
      cursor := lastRet;
      lastRet := -1;
      r := Ok(());
    }
  }

  /** java.util.HashMap, as the mapping it holds. */
  class HashMap<K(==), V> {
    var entries: map<K, V>

    constructor (initial: map<K, V>)
      ensures entries == initial
    {
      entries := initial;
    }

    /** Map.get: the value under key, or null when the key is absent. */
    function Get(key: K): (r: Option<V>)
      reads this
      ensures r.Some? <==> key in entries
      ensures r.Some? ==> r.value == entries[key]
    {
      if key in entries then Some(entries[key]) else None
    }

    /** Map.put: key now maps to value; every other entry is unchanged. */
    method Put(key: K, value: V)
      modifies this
      ensures entries == old(entries)[key := value]
    {
      entries := entries[key := value];
    }

    /** entrySet().removeIf: drops the entries the predicate accepts. */
    method RemoveEntriesIf(p: (K, V) -> bool)
      modifies this
      ensures entries == map k | k in old(entries) && !p(k, old(entries)[k]) :: old(entries)[k]
    {
      entries := map k | k in entries && !p(k, entries[k]) :: entries[k];
    }
  }

  /** java.util.HashSet, as the set it holds. */
  class HashSet<T(==)> {
    var elements: set<T>

    /** new HashSet<>(collection): a copy of the collection's elements. */
    constructor (initial: set<T>)
      ensures elements == initial
    {
      elements := initial;
    }
  }

  /** java.util.function.Predicate, which records the arguments it was tested on. */
  class Predicate<T> {
    const test: T -> bool
    var tested: seq<T>

    constructor (test: T -> bool)
      ensures this.test == test && tested == []
    {
      this.test := test;
      tested := [];
    }

    method Test(x: T) returns (b: bool)
      modifies this
      ensures b == test(x)
      ensures tested == old(tested) + [x]
    {
      b := test(x);
      tested := tested + [x];
    }
  }

  /** java.util.function.Consumer, which records the values it accepted. */
  class Consumer<V> {
    var accepted: seq<V>

    constructor ()
      ensures accepted == []
    {
      accepted := [];
    }

    method Accept(v: V)
      modifies this
      ensures accepted == old(accepted) + [v]
    {
      accepted := accepted + [v];
    }
  }
}
