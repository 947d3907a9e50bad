/**
 * MoreEnumUtils: the names of enum constants, collected into sets and joined
 * into comma-separated strings.
 */
module MoreEnumUtils {
  import opened JavaLang

  /** An enum constant: its name and its ordinal. */
  datatype EnumConstant = EnumConstant(name: string, ordinal: nat)

  /** An enum class, by its constants in declaration order (Class.getEnumConstants). */
  datatype EnumClass = EnumClass(constants: seq<EnumConstant>)
  {
    /** What the Java compiler guarantees of an enum: distinct names, ordinals 0, 1, 2, ... */
    predicate Valid()
    {
      (forall i | 0 <= i < |constants| :: constants[i].ordinal == i)
      && (forall i, j | 0 <= i < j < |constants| :: constants[i].name != constants[j].name)
    }
  }

  /** A Java identifier has at least one character and no comma, which is all join needs of a name. */
  predicate IsIdentifier(name: string)
  {
    |name| > 0 && ',' !in name
  }

  /** getName: "null" for null, otherwise name(). */
  function GetName(value: Option<EnumConstant>): (r: string)
    ensures value.None? ==> r == "null"
    ensures value.Some? ==> r == value.value.name
    ensures (value.None? || IsIdentifier(value.value.name)) ==> IsIdentifier(r)
  {
    if value.None? then "null" else value.value.name
  }

  /**
   * getNames(array) and getNames(collection): the set of getName over the
   * enums, so duplicates collapse. The two overloads stream their argument
   * in the same way, so one definition models both.
   */
  function GetNames(enums: seq<Option<EnumConstant>>): (r: set<string>)
    ensures |r| <= |enums|
  {
    if enums == [] then {} else GetNames(enums[..|enums| - 1]) + {GetName(enums[|enums| - 1])}
  }

  /** A name is in getNames(enums) exactly when getName gives it for one of the enums. */
  lemma {:induction false} GetNamesMembership(enums: seq<Option<EnumConstant>>, n: string)
    ensures n in GetNames(enums) <==> exists i | 0 <= i < |enums| :: GetName(enums[i]) == n
  {
    if enums != [] {
      var init := enums[..|enums| - 1];
      GetNamesMembership(init, n);
      if n in GetNames(init) {
        var i :| 0 <= i < |init| && GetName(init[i]) == n;
        assert enums[i] == init[i];
      }
      if exists i | 0 <= i < |enums| :: GetName(enums[i]) == n {
        var i :| 0 <= i < |enums| && GetName(enums[i]) == n;
        if i < |init| {
          assert init[i] == enums[i];
        }
      }
    }
  }

  /** Each constant as a non-null reference, in order. */
  function Boxed(constants: seq<EnumConstant>): (r: seq<Option<EnumConstant>>)
    ensures |r| == |constants|
    ensures forall i | 0 <= i < |constants| :: r[i] == Some(constants[i])
  {
    if constants == [] then [] else [Some(constants[0])] + Boxed(constants[1..])
  }

  /** getNames(enumClass): getName over all of the class's constants. */
  function GetNamesOfClass(enumClass: EnumClass): (r: set<string>)
    ensures forall n :: n in r <==> exists i | 0 <= i < |enumClass.constants| :: enumClass.constants[i].name == n
  {
    var boxed := Boxed(enumClass.constants);
    assert forall i | 0 <= i < |boxed| :: GetName(boxed[i]) == enumClass.constants[i].name;
    assert forall n :: n in GetNames(boxed) <==> exists i | 0 <= i < |boxed| :: GetName(boxed[i]) == n by {
      forall n {
        GetNamesMembership(boxed, n);
      }
    }
    GetNames(boxed)
  }

  /** Enums with pairwise distinct names keep one name each. */
  lemma {:induction false} DistinctNamesCount(enums: seq<Option<EnumConstant>>)
    requires forall i, j | 0 <= i < j < |enums| :: GetName(enums[i]) != GetName(enums[j])
    ensures |GetNames(enums)| == |enums|
  {
    if enums != [] {
      var init := enums[..|enums| - 1];
      assert forall i | 0 <= i < |init| :: init[i] == enums[i];
      DistinctNamesCount(init);
      GetNamesMembership(init, GetName(enums[|enums| - 1]));
    }
  }

  /** A valid enum class has exactly as many names as constants: distinct names collapse nothing. */
  lemma NamesOfClassCount(enumClass: EnumClass)
    requires enumClass.Valid()
    ensures |GetNamesOfClass(enumClass)| == |enumClass.constants|
  {
    var boxed := Boxed(enumClass.constants);
    DistinctNamesCount(boxed);
  }

  /** StringUtils.join(strings, separator): the strings in iteration order, separator between each two. */
  function JoinStrings(strings: seq<string>, separator: char): (r: string)
    ensures strings == [] ==> r == ""
    ensures |strings| == 1 ==> r == strings[0]
  {
    if strings == [] then ""
    else if |strings| == 1 then strings[0]
    else strings[0] + [separator] + JoinStrings(strings[1..], separator)
  }

  /** The fields of s between separators: what String.split(separator, -1) returns. */
  function Split(s: string, separator: char): (r: seq<string>)
    ensures |r| > 0
  {
    if s == [] then [""]
    else
      var rest := Split(s[1..], separator);
      if s[0] == separator then [""] + rest else [[s[0]] + rest[0]] + rest[1..]
  }

  lemma {:induction false} SplitWithout(s: string, separator: char)
    requires separator !in s
    ensures Split(s, separator) == [s]
  {
    if s != [] {
      assert separator !in s[1..] by {
        assert forall i | 0 <= i < |s[1..]| :: s[1..][i] == s[i + 1];
      }
      SplitWithout(s[1..], separator);
      assert [s[0]] + s[1..] == s;
    }
  }

  lemma {:induction false} SplitAround(a: string, b: string, separator: char)
    requires separator !in a
    ensures Split(a + [separator] + b, separator) == [a] + Split(b, separator)
  {
    if a == [] {
      assert a + [separator] + b == [separator] + b;
      assert ([separator] + b)[1..] == b;
    } else {
      SplitAround(a[1..], b, separator);
      assert (a + [separator] + b)[1..] == a[1..] + [separator] + b;
      assert [a[0]] + a[1..] == a;
    }
  }

  /** Splitting undoes joining, as long as no string contains the separator. */
  lemma {:induction false} SplitJoin(strings: seq<string>, separator: char)
    requires strings != []
    requires forall i | 0 <= i < |strings| :: separator !in strings[i]
    ensures Split(JoinStrings(strings, separator), separator) == strings
  {
    if |strings| == 1 {
      SplitWithout(strings[0], separator);
    } else {
      SplitJoin(strings[1..], separator);
      SplitAround(strings[0], JoinStrings(strings[1..], separator), separator);
    }
  }

  /** `order` lists the elements of `elements` once each: the iteration order of the HashSet. */
  predicate Enumerates(order: seq<string>, elements: set<string>)
  {
    (forall i | 0 <= i < |order| :: order[i] in elements)
    && (forall n | n in elements :: n in order)
    && (forall i, j | 0 <= i < j < |order| :: order[i] != order[j])
  }

  /**
   * join(enums): the names of getNames(enums) joined with ",". The set's
   * iteration order is the parameter order.
   */
  function Join(enums: seq<Option<EnumConstant>>, order: seq<string>): (r: string)
    requires Enumerates(order, GetNames(enums))
  {
    JoinStrings(order, ',')
  }

  /**
   * join is empty exactly for no enums, and otherwise splitting it on ","
   * gives back the name set, each name once.
   */
  lemma JoinLaws(enums: seq<Option<EnumConstant>>, order: seq<string>)
    requires Enumerates(order, GetNames(enums))
    requires forall i | 0 <= i < |enums| :: enums[i].None? || IsIdentifier(enums[i].value.name)
    ensures Join(enums, order) == "" <==> enums == []
    ensures enums != [] ==> Split(Join(enums, order), ',') == order
  {
    if enums == [] {
      assert GetNames(enums) == {};
    } else {
      GetNamesMembership(enums, GetName(enums[0]));
      assert order != [];
      forall i | 0 <= i < |order| ensures IsIdentifier(order[i]) {
        GetNamesMembership(enums, order[i]);
        var k :| 0 <= k < |enums| && GetName(enums[k]) == order[i];
      }
      SplitJoin(order, ',');
      if |order| > 1 {
        assert |JoinStrings(order, ',')| >= |order[0]| + 1;
      }
    }
  }
}
