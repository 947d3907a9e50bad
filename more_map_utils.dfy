/**
 * MoreMapUtils: entry validity, reverse lookup, keyed lookup with a
 * fallback, and bulk updates of a map.
 */
module MoreMapUtils {
  import opened JavaLang
  import opened JavaCollections

  /** validEntry(entry): the entry, its key and its value are all non-null. */
  function ValidEntry<K, V>(entry: Option<(Option<K>, Option<V>)>): (r: bool)
    ensures r ==> entry.Some?
    ensures entry.Some? ==> (r <==> entry.value.0.Some? && entry.value.1.Some?)
  {
    entry.Some? && entry.value.0.Some? && entry.value.1.Some?
  }

  /**
   * getKeyFromValue(map, value): null for a null map; otherwise the key of the
   * first entry, in iteration order, whose value equals value, or null when
   * none does. The map is given as its entries in iteration order. For a
   * BiMap the code asks the inverse map instead, which gives the same key,
   * since a BiMap holds each value once.
   */
  method GetKeyFromValue<K, V(==)>(entries: Option<seq<(K, V)>>, value: V) returns (r: Option<K>)
    ensures entries.None? ==> r.None?
    ensures r.None? && entries.Some? ==> forall i | 0 <= i < |entries.value| :: entries.value[i].1 != value
    ensures r.Some? ==> entries.Some? && exists i | 0 <= i < |entries.value| ::
              entries.value[i] == (r.value, value) && forall j | 0 <= j < i :: entries.value[j].1 != value
  {
    if entries.None? {
      return None;
    }
    var es := entries.value;
    for i := 0 to |es|
      invariant forall j | 0 <= j < i :: es[j].1 != value
    {
      if value == es[i].1 {
        return Some(es[i].0);
      }
    }
    return None;
  }

  /** What the parser makes of a value: its result, or the fallback when it throws. */
  function Parsed<V, R>(parser: V -> Result<R>, v: V, fallback: R): R
  {
    match parser(v)
    case Ok(x) => x
    case Err(_) => fallback
  }

  /**
   * attemptGet(map, parser, fallback, keys): the parsed value under the first
   * key of keys that the map contains (the fallback if parsing throws; later
   * keys are not tried), or the fallback when the map is null or empty, keys
   * is null or empty, or no key is present.
   */
  method AttemptGet<K, V, R>(m: Option<map<K, V>>, parser: V -> Result<R>, fallback: R, keys: Option<seq<K>>)
    returns (r: R)
    ensures m.None? || keys.None? ==> r == fallback
    ensures m.Some? && keys.Some? && (forall i | 0 <= i < |keys.value| :: keys.value[i] !in m.value) ==> r == fallback
    ensures m.Some? && keys.Some? ==>
              forall i | 0 <= i < |keys.value| && keys.value[i] in m.value
                         && (forall j | 0 <= j < i :: keys.value[j] !in m.value) ::
                r == Parsed(parser, m.value[keys.value[i]], fallback)
  {
    if m.Some? && |m.value| != 0 && keys.Some? && |keys.value| != 0 {
      var ks := keys.value;
      for i := 0 to |ks|
        invariant forall j | 0 <= j < i :: ks[j] !in m.value
      {
        var key := ks[i];
        if key in m.value {
          return Parsed(parser, m.value[key], fallback);
        }
      }
    }
    return fallback;
  }

  /**
   * attemptGet(map, parser, fallback, keys) with a null parser: the default
   * parser is an unchecked cast, which at run time hands the value back
   * unchanged, so the value type and the result type coincide here.
   */
  method AttemptGetDefault<K, V>(m: Option<map<K, V>>, parser: Option<V -> Result<V>>, fallback: V, keys: Option<seq<K>>)
    returns (r: V)
    ensures parser.None? && m.Some? && keys.Some? ==>
              forall i | 0 <= i < |keys.value| && keys.value[i] in m.value
                         && (forall j | 0 <= j < i :: keys.value[j] !in m.value) ::
                r == m.value[keys.value[i]]
    ensures m.None? || keys.None? ==> r == fallback
    ensures m.Some? && keys.Some? && (forall i | 0 <= i < |keys.value| :: keys.value[i] !in m.value) ==> r == fallback
  {
    if parser.None? {
      r := AttemptGet(m, (v: V) => Ok(v), fallback, keys);
    } else {
      r := AttemptGet(m, parser.value, fallback, keys);
    }
  }

  /** attemptGet(map, fallback, keys): the overload without a parser. */
  method AttemptGetUnparsed<K, V>(m: Option<map<K, V>>, fallback: V, keys: Option<seq<K>>) returns (r: V)
    ensures m.Some? && keys.Some? ==>
              forall i | 0 <= i < |keys.value| && keys.value[i] in m.value
                         && (forall j | 0 <= j < i :: keys.value[j] !in m.value) ::
                r == m.value[keys.value[i]]
    ensures m.None? || keys.None? ==> r == fallback
    ensures m.Some? && keys.Some? && (forall i | 0 <= i < |keys.value| :: keys.value[i] !in m.value) ==> r == fallback
  {
    r := AttemptGetDefault(m, None, fallback, keys);
  }

  /**
   * setMultipleKeys(map, value, keys): every given key now maps to value and
   * every other entry is unchanged; nothing happens for a null map or a null
   * or empty keys array.
   */
  method SetMultipleKeys<K, V>(m: HashMap?<K, V>, value: V, keys: Option<seq<K>>)
    modifies m
    ensures m != null && keys.Some? ==>
              m.entries.Keys == old(m.entries.Keys) + (set i | 0 <= i < |keys.value| :: keys.value[i])
              && (forall i | 0 <= i < |keys.value| :: m.entries[keys.value[i]] == value)
              && (forall k | k in old(m.entries) && k !in keys.value :: m.entries[k] == old(m.entries[k]))
    ensures m != null && keys.None? ==> m.entries == old(m.entries)
  {
    if m != null && keys.Some? && |keys.value| != 0 {
      var ks := keys.value;
      for i := 0 to |ks|
        invariant m.entries.Keys == old(m.entries.Keys) + (set j | 0 <= j < i :: ks[j])
        invariant forall j | 0 <= j < i :: m.entries[ks[j]] == value
        invariant forall k | k in old(m.entries) && k !in ks[..i] :: m.entries[k] == old(m.entries[k])
      {
        m.Put(ks[i], value);
        assert ks[..i + 1] == ks[..i] + [ks[i]];
      }
      assert ks[..|ks|] == ks;
    }
  }

  /**
   * removeIf(map, predicate): the map keeps exactly the old entries the
   * predicate rejects, with their old values.
   */
  method RemoveIf<K, V>(m: HashMap<K, V>, test: (K, V) -> bool)
    modifies m
    ensures forall k :: k in m.entries <==> k in old(m.entries) && !test(k, old(m.entries[k]))
    ensures forall k | k in m.entries :: m.entries[k] == old(m.entries[k])
  {
    m.RemoveEntriesIf(test);
  }

  /**
   * useIfPresent(map, key, handler): the handler is called once, with the
   * value under key, when that value is non-null, and not at all when the key
   * is absent or mapped to null. A Java map may hold null values, so the
   * values here are optional.
   */
  method UseIfPresent<K, V>(m: HashMap<K, Option<V>>, key: K, handler: Consumer<V>)
    modifies handler
    ensures key in m.entries && m.entries[key].Some? ==>
              handler.accepted == old(handler.accepted) + [m.entries[key].value]
    ensures key !in m.entries || m.entries[key].None? ==> handler.accepted == old(handler.accepted)
  {
    var value := m.Get(key);
    if value.Some? && value.value.Some? {
      handler.Accept(value.value.value);
    }
  }
}
