/**
 * MoreArrayUtils: filling, mapping, indexing and querying arrays. The
 * methods that write into an array take the array itself (null allowed);
 * the queries read its contents, Option<seq<_>>, with None for a null array.
 */
module MoreArrayUtils {
  import opened JavaLang
  import opened Sequences

  /**
   * fill(array, value): every slot of a non-empty array now holds value; the
   * same array (or null) is returned and its length is unchanged.
   */
  method Fill<T>(a: array?<T>, value: T) returns (r: array?<T>)
    modifies a
    ensures r == a
    ensures a != null ==> forall i | 0 <= i < a.Length :: a[i] == value
  {
    if a != null && a.Length > 0 {
      forall i | 0 <= i < a.Length {
        a[i] := value;
      }
    }
    r := a;
  }

  /**
   * computeElements(array, mapper): each slot is replaced by mapper applied to
   * its old value, in index order; nothing changes for a null or empty array
   * or a null mapper.
   */
  method ComputeElements<T>(a: array?<T>, mapper: Option<T -> T>)
    modifies a
    ensures a != null && mapper.Some? ==> forall i | 0 <= i < a.Length :: a[i] == mapper.value(old(a[i]))
    ensures a != null && mapper.None? ==> a[..] == old(a[..])
  {
    if a != null && a.Length > 0 && mapper.Some? {
      var l := a.Length;
      for i := 0 to l
        invariant forall j | 0 <= j < i :: a[j] == mapper.value(old(a[j]))
        invariant forall j | i <= j < l :: a[j] == old(a[j])
      {
        a[i] := mapper.value(a[i]);
      }
    }
  }

  /**
   * List.of(array): the array's elements as a list; NullPointerException for a
   * null array or a null element.
   */
  function ListOf<T>(a: Option<seq<Option<T>>>): (r: Result<seq<T>>)
    ensures r.Ok? <==> a.Some? && forall i | 0 <= i < |a.value| :: a.value[i].Some?
    ensures r.Err? ==> r.error == NullPointerException
    ensures r.Ok? ==> |r.value| == |a.value| && forall i | 0 <= i < |r.value| :: a.value[i] == Some(r.value[i])
  {
    if a.None? || exists i | 0 <= i < |a.value| :: a.value[i].None? then Err(NullPointerException)
    else Ok(seq(|a.value|, i requires 0 <= i < |a.value| => a.value[i].value))
  }

  /**
   * anyMatch(array, predicate) (deprecated): false for a null predicate (the
   * doc comment promises true); otherwise List.of(array), which throws for a
   * null array or a null element, then whether some element passes.
   */
  function AnyMatch<T>(a: Option<seq<Option<T>>>, test: Option<T -> bool>): (r: Result<bool>)
    ensures test.None? ==> r == Ok(false)
    ensures test.Some? ==> (r.Err? <==> ListOf(a).Err?)
    ensures test.Some? && r.Ok? ==> (r.value <==> exists i | 0 <= i < |a.value| :: test.value(a.value[i].value))
  {
    if test.None? then Ok(false)
    else
      match ListOf(a)
      case Err(e) => Err(e)
      case Ok(list) => Ok(exists i | 0 <= i < |list| :: test.value(list[i]))
  }

  /**
   * allMatch(array, predicate) (deprecated): false for a null predicate (the
   * doc comment promises true); otherwise List.of(array), which throws for a
   * null array or a null element, then whether every element passes.
   */
  function AllMatch<T>(a: Option<seq<Option<T>>>, test: Option<T -> bool>): (r: Result<bool>)
    ensures test.None? ==> r == Ok(false)
    ensures test.Some? ==> (r.Err? <==> ListOf(a).Err?)
    ensures test.Some? && r.Ok? ==> (r.value <==> forall i | 0 <= i < |a.value| :: test.value(a.value[i].value))
  {
    if test.None? then Ok(false)
    else
      match ListOf(a)
      case Err(e) => Err(e)
      case Ok(list) => Ok(forall i | 0 <= i < |list| :: test.value(list[i]))
  }

  /**
   * numberOfMatches(array, matcher) (deprecated): 0 for a null matcher;
   * otherwise List.of(array), which throws for a null array or a null
   * element, then the number of elements that pass.
   */
  function NumberOfMatches<T>(a: Option<seq<Option<T>>>, matcher: Option<T -> bool>): (r: Result<nat>)
    ensures matcher.None? ==> r == Ok(0)
    ensures matcher.Some? ==> (r.Err? <==> ListOf(a).Err?)
    ensures r.Ok? && matcher.Some? ==> r.value <= |a.value|
  {
    if matcher.None? then Ok(0)
    else
      match ListOf(a)
      case Err(e) => Err(e)
      case Ok(list) => Ok(Count(list, matcher.value))
  }

  /**
   * The three queries agree on an array without nulls: anyMatch holds exactly
   * when numberOfMatches is positive, allMatch exactly when it counts every
   * element.
   */
  lemma MatchQueriesAgree<T>(a: seq<Option<T>>, test: T -> bool)
    requires forall i | 0 <= i < |a| :: a[i].Some?
    ensures AnyMatch(Some(a), Some(test)).value <==> NumberOfMatches(Some(a), Some(test)).value > 0
    ensures AllMatch(Some(a), Some(test)).value <==> NumberOfMatches(Some(a), Some(test)).value == |a|
  {
    var list := ListOf(Some(a)).value;
    CountPositive(list, test);
    CountAll(list, test);
  }

  /** isSafeIndex(array, index): a non-null array and 0 <= index < length. */
  function IsSafeIndex<T>(a: Option<seq<T>>, index: i32): (r: bool)
    ensures r <==> a.Some? && 0 <= index as int < |a.value|
  {
    a.Some? && index >= 0 && (index as int) < |a.value|
  }

  /**
   * getElement(array, index) as written: the guard is inverted, so a safe
   * index yields null, a null array throws NullPointerException, and an
   * out-of-range index throws ArrayIndexOutOfBoundsException.
   */
  function GetElementAsWritten<T>(a: Option<seq<T>>, index: i32): (r: Result<Option<T>>)
    ensures r.Ok? <==> IsSafeIndex(a, index)
    ensures r.Ok? ==> r.value.None?
    ensures a.None? ==> r == Err(NullPointerException)
    ensures a.Some? && !IsSafeIndex(a, index) ==> r == Err(ArrayIndexOutOfBoundsException)
  {
    if IsSafeIndex(a, index) then Ok(None)
    else if a.None? then Err(NullPointerException)
    else Err(ArrayIndexOutOfBoundsException)
  }

  /** As written, getElement never returns an element: on [x] at index 0 it yields null, at index 1 it throws. */
  lemma GetElementAsWrittenLosesElement<T>(x: T)
    ensures GetElementAsWritten(Some([x]), 0) == Ok(None)
    ensures GetElementAsWritten(Some([x]), 1) == Err(ArrayIndexOutOfBoundsException)
  {
  }

  /** getElement as its doc comment describes it: the element at a safe index, null otherwise, never an exception. */
  function GetElement<T>(a: Option<seq<T>>, index: i32): (r: Option<T>)
    ensures r.Some? <==> IsSafeIndex(a, index)
    ensures r.Some? ==> r.value == a.value[index]
  {
    if IsSafeIndex(a, index) then Some(a.value[index]) else None
  }
}
