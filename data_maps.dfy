/**
 * The `JobDataMap` as the execution context and the JMX invoker job see it:
 * string keys mapped to arbitrary objects, read back with `getString`.
 */
module DataMaps {
  import opened Wrappers
  import opened JavaLang

  /** A value stored in a data map: Java `null`, a `String`, or some other object (known by an identity). */
  datatype Value = Null | Str(s: string) | Other(id: nat)

  type JobDataMap = map<string, Value>

  /** The exception `getString` throws when the stored object is not a `String`. */
  const NotAString := Exc(ClassCastClass, Some("Identified object is not a String."))

  /**
   * `JobDataMap.getString`: null for a missing key or a stored null, the string for a
   * stored `String`, and a `ClassCastException` for any other object.
   */
  function GetString(m: JobDataMap, key: string): (r: Result<Option<string>, Exc>)
    ensures r.Failure? <==> key in m && m[key].Other?
    ensures r.Failure? ==> r.error == NotAString
    ensures r == Success(None) <==> key !in m || m[key] == Null
    ensures forall s :: r == Success(Some(s)) <==> key in m && m[key] == Str(s)
  {
    if key !in m then Success(None)
    else match m[key]
      case Null => Success(None)
      case Str(s) => Success(Some(s))
      case Other(_) => Failure(NotAString)
  }

  /**
   * `target.putAll(source)`: every key of either map, the source's value winning
   * wherever both have the key.
   */
  function PutAll(target: JobDataMap, source: JobDataMap): (r: JobDataMap)
    ensures r.Keys == target.Keys + source.Keys
    ensures forall k :: k in source ==> r[k] == source[k]
    ensures forall k :: k in target && k !in source ==> r[k] == target[k]
  {
    target + source
  }

  /** `keys` is what `getKeys()` returns for `m`: each key of the map exactly once, in some order. */
  predicate KeyOrder(keys: seq<string>, m: JobDataMap) {
    && (forall i :: 0 <= i < |keys| ==> keys[i] in m)
    && (forall k :: k in m ==> k in keys)
    && (forall i, j :: 0 <= i < j < |keys| ==> keys[i] != keys[j])
  }

  /** The precedence example: a job map {a:1} under a trigger map {a:2, b:3} gives {a:2, b:3}. */
  lemma PutAllPrecedenceExample()
    ensures PutAll(PutAll(map[], map["a" := Other(1)]), map["a" := Other(2), "b" := Other(3)])
            == map["a" := Other(2), "b" := Other(3)]
  {
  }
}
