/**
 * `JMXInvokerJob.execute`: reads the object name, the operation and the parameter
 * definitions from the merged data map, decodes the definitions into a parameter list
 * and a parallel list of type names, and invokes the operation; any failure comes back
 * to the scheduler wrapped in a `JobExecutionException` that does not ask for a refire.
 *
 * The managed-bean invocation and the numeric conversions (`Integer.valueOf` and the
 * like) are foreign calls; they are parameters of the model.
 */
module JmxInvoker {
  import opened Wrappers
  import opened JavaLang
  import opened DataMaps
  import opened Tokenizer
  import ExecutionContexts

  /** The reserved keys, recognised whatever their case. */
  const ObjectNameKey := "JMX_OBJECTNAME"
  const MethodKey := "JMX_METHOD"
  const ParamDefsKey := "JMX_PARAMDEFS"

  /** The closed set of parameter types a definition can name. */
  datatype TypeTag =
    | IntPrimitive | IntWrapper
    | LongPrimitive | LongWrapper
    | FloatPrimitive | FloatWrapper
    | DoublePrimitive | DoubleWrapper
    | StringType
    | BooleanPrimitive | BooleanWrapper

  /** The switch on the first character of a definition's type part; other characters name no type. */
  function TagOf(c: char): Option<TypeTag> {
    match c
    case 'i' => Some(IntPrimitive)
    case 'I' => Some(IntWrapper)
    case 'l' => Some(LongPrimitive)
    case 'L' => Some(LongWrapper)
    case 'f' => Some(FloatPrimitive)
    case 'F' => Some(FloatWrapper)
    case 'd' => Some(DoublePrimitive)
    case 'D' => Some(DoubleWrapper)
    case 's' => Some(StringType)
    case 'b' => Some(BooleanPrimitive)
    case 'B' => Some(BooleanWrapper)
    case _ => None
  }

  /** The class name recorded in `types[k]`: `Integer.TYPE.getName()`, `Integer.class.getName()`, and so on. */
  function TypeName(t: TypeTag): string {
    match t
    case IntPrimitive => "int"
    case IntWrapper => "java.lang.Integer"
    case LongPrimitive => "long"
    case LongWrapper => "java.lang.Long"
    case FloatPrimitive => "float"
    case FloatWrapper => "java.lang.Float"
    case DoublePrimitive => "double"
    case DoubleWrapper => "java.lang.Double"
    case StringType => "java.lang.String"
    case BooleanPrimitive => "boolean"
    case BooleanWrapper => "java.lang.Boolean"
  }

  const PrimitiveTypeNames: set<string> := {"int", "long", "float", "double", "boolean"}

  /**
   * The tag table: the five lower-case letters `i l f d b` name primitive types, `s` the
   * `String` class and the upper-case `I L F D B` wrapper classes; no other character (not
   * even `S`) names a type.
   */
  lemma TagTable(c: char)
    ensures TagOf(c).Some? <==> c in "iIlLfFdDsbB"
    ensures TagOf(c).Some? ==> (TypeName(TagOf(c).value) in PrimitiveTypeNames <==> c in "ilfdb")
    ensures TagOf(c) == Some(StringType) <==> c == 's'
  {
    if c in "iIlLfFdDsbB" {
      assert c in {'i', 'I', 'l', 'L', 'f', 'F', 'd', 'D', 's', 'b', 'B'};
    } else {
      assert TagOf(c) == None;
    }
  }

  /** The upper-case form of a primitive type's letter names the wrapper class of the same type. */
  lemma WrapperTags(c: char)
    requires c in "ilfdb"
    ensures TagOf(UpperAscii(c)).Some? && TagOf(c).Some?
    ensures TypeName(TagOf(UpperAscii(c)).value) == "java.lang." + WrapperOf(TypeName(TagOf(c).value))
  {
    if c == 'i' {
      assert UpperAscii(c) == 'I';
    } else if c == 'l' {
      assert UpperAscii(c) == 'L';
    } else if c == 'f' {
      assert UpperAscii(c) == 'F';
    } else if c == 'd' {
      assert UpperAscii(c) == 'D';
    } else {
      assert c == 'b' && UpperAscii(c) == 'B';
    }
  }

  /** The wrapper class's simple name for a primitive type name. */
  function WrapperOf(primitive: string): string {
    match primitive
    case "int" => "Integer"
    case "long" => "Long"
    case "float" => "Float"
    case "double" => "Double"
    case "boolean" => "Boolean"
    case _ => primitive
  }

  /** A decoded parameter: a `String` (possibly null), a `Boolean`, or a converted number. */
  datatype Param<N> = StringParam(s: Option<string>) | BooleanParam(b: bool) | NumberParam(n: N)

  /** `Boolean.valueOf(String)`: true exactly for "true" in any case; null gives false. */
  function BooleanValueOf(s: Option<string>): bool {
    s.Some? && EqualsIgnoreCase(s.value, "true")
  }

  /** The conversion of case `t` of the switch, applied to the named entry's string. */
  function ConvertParam<N>(t: TypeTag, raw: Option<string>, valueOf: (TypeTag, Option<string>) -> Result<N, Exc>)
    : Result<Param<N>, Exc>
  {
    match t
    case StringType => Success(StringParam(raw))
    case BooleanPrimitive => Success(BooleanParam(BooleanValueOf(raw)))
    case BooleanWrapper => Success(BooleanParam(BooleanValueOf(raw)))
    case _ =>
      var n :- valueOf(t, raw);
      Success(NumberParam(n))
  }

  /** What one definition puts in `params[k]` and `types[k]`. */
  datatype Decoded<N> = Decoded(param: Param<N>, typeName: string)

  function InvalidDefinition(def: string): Exc {
    Exc(ExceptionClass, Some("Invalid parameter definition: required parts missing " + def))
  }

  /**
   * One `<type>:<name>` definition: fewer than two `:`-separated parts is an error; a type
   * part whose first character is in the table decodes the entry named by the second
   * part; any other first character leaves the entry unset (`None`).
   */
  function DecodeDefinition<N>(data: JobDataMap, def: string, valueOf: (TypeTag, Option<string>) -> Result<N, Exc>)
    : Result<Option<Decoded<N>>, Exc>
  {
    var parts := Tokens(def, ":");
    if |parts| < 2 then Failure(InvalidDefinition(def))
    else
      TokensWellFormed(def, ":");
      DecodeNamed(data, TagOf(parts[0][0]), parts[1], valueOf)
  }

  /** The switch on the type character: an unknown one leaves the entry unset. */
  function DecodeNamed<N>(data: JobDataMap, tag: Option<TypeTag>, name: string,
                          valueOf: (TypeTag, Option<string>) -> Result<N, Exc>): Result<Option<Decoded<N>>, Exc>
  {
    match tag
    case None => Success(None)
    case Some(t) =>
      var raw :- GetString(data, name);
      var param :- ConvertParam(t, raw, valueOf);
      Success(Some(Decoded(param, TypeName(t))))
  }

  /** The definitions in order; the first one that fails ends the decoding. */
  function DecodeDefinitions<N>(data: JobDataMap, defs: seq<string>, valueOf: (TypeTag, Option<string>) -> Result<N, Exc>)
    : Result<seq<Option<Decoded<N>>>, Exc>
  {
    if defs == [] then Success([])
    else
      var first :- DecodeDefinition(data, defs[0], valueOf);
      var rest :- DecodeDefinitions(data, defs[1..], valueOf);
      Success([first] + rest)
  }

  /** The two parallel arrays `params` and `types`, `None` where an entry was left unset. */
  datatype ParamArrays<N> = ParamArrays(params: seq<Option<Param<N>>>, types: seq<Option<string>>)

  function ArraysOf<N>(ds: seq<Option<Decoded<N>>>): ParamArrays<N> {
    ParamArrays(
      seq(|ds|, k requires 0 <= k < |ds| => if ds[k].Some? then Some(ds[k].value.param) else None),
      seq(|ds|, k requires 0 <= k < |ds| => if ds[k].Some? then Some(ds[k].value.typeName) else None))
  }

  /** One more decoded definition adds one entry at the end of each array. */
  lemma ArraysOfAppend<N>(ds: seq<Option<Decoded<N>>>, d: Option<Decoded<N>>)
    ensures ArraysOf(ds + [d]).params == ArraysOf(ds).params + [if d.Some? then Some(d.value.param) else None]
    ensures ArraysOf(ds + [d]).types == ArraysOf(ds).types + [if d.Some? then Some(d.value.typeName) else None]
  {
    assert (ds + [d])[..|ds|] == ds;
  }

  /** The value of `JMX_PARAMDEFS`, split at commas and decoded. */
  function DecodeParamDefs<N>(data: JobDataMap, value: string, valueOf: (TypeTag, Option<string>) -> Result<N, Exc>)
    : Result<ParamArrays<N>, Exc>
  {
    var ds :- DecodeDefinitions(data, Tokens(value, ","), valueOf);
    Success(ArraysOf(ds))
  }

  /** What `invoke` receives: object name, operation, and the two arrays (each possibly null). */
  datatype Invocation<N> = Invocation(
    objName: Option<string>,
    objMethod: Option<string>,
    params: Option<seq<Option<Param<N>>>>,
    types: Option<seq<Option<string>>>)

  /** `new StringTokenizer(null, ",")` for a null `JMX_PARAMDEFS` value. */
  const NullParamDefs := Exc(NullPointerClass, None)

  const RequiredMissing := Exc(ExceptionClass, Some("Required parameters missing"))

  /** One turn of the key loop: read the key's string, then act on it if it is a reserved key. */
  function ScanKey<N>(data: JobDataMap, key: string, read: Invocation<N>,
                      valueOf: (TypeTag, Option<string>) -> Result<N, Exc>): Result<Invocation<N>, Exc>
  {
    var value :- GetString(data, key);
    if EqualsIgnoreCase(ObjectNameKey, key) then Success(read.(objName := value))
    else if EqualsIgnoreCase(MethodKey, key) then Success(read.(objMethod := value))
    else if EqualsIgnoreCase(ParamDefsKey, key) then
      if value.None? then Failure(NullParamDefs)
      else
        var arrays :- DecodeParamDefs(data, value.value, valueOf);
        Success(read.(params := Some(arrays.params), types := Some(arrays.types)))
    else Success(read)
  }

  function ScanKeys<N>(data: JobDataMap, keys: seq<string>, read: Invocation<N>,
                       valueOf: (TypeTag, Option<string>) -> Result<N, Exc>): Result<Invocation<N>, Exc>
  {
    if keys == [] then Success(read)
    else
      var next :- ScanKey(data, keys[0], read, valueOf);
      ScanKeys(data, keys[1..], next, valueOf)
  }

  /** Everything `execute` does before `invoke`: the key loop, then the required-key check. */
  function Decode<N>(data: JobDataMap, keys: seq<string>, valueOf: (TypeTag, Option<string>) -> Result<N, Exc>)
    : Result<Invocation<N>, Exc>
  {
    var read :- ScanKeys(data, keys, Invocation(None, None, None, None), valueOf);
    if read.objName.None? || read.objMethod.None? then Failure(RequiredMissing) else Success(read)
  }

  /** Decoding the definitions succeeds exactly when each one does, and then entry `k` comes from definition `k`. */
  lemma {:induction false} DecodeDefinitionsPointwise<N>(data: JobDataMap, defs: seq<string>,
                                                          valueOf: (TypeTag, Option<string>) -> Result<N, Exc>)
    ensures DecodeDefinitions(data, defs, valueOf).Success? <==>
              forall k :: 0 <= k < |defs| ==> DecodeDefinition(data, defs[k], valueOf).Success?
    ensures DecodeDefinitions(data, defs, valueOf).Success? ==>
              && |DecodeDefinitions(data, defs, valueOf).value| == |defs|
              && forall k :: 0 <= k < |defs| ==>
                   DecodeDefinition(data, defs[k], valueOf) == Success(DecodeDefinitions(data, defs, valueOf).value[k])
  {
    if defs != [] {
      DecodeDefinitionsPointwise(data, defs[1..], valueOf);
      if DecodeDefinition(data, defs[0], valueOf).Success? && DecodeDefinitions(data, defs[1..], valueOf).Success? {
        var rest := DecodeDefinitions(data, defs[1..], valueOf).value;
        var ds := DecodeDefinitions(data, defs, valueOf).value;
        assert ds == [DecodeDefinition(data, defs[0], valueOf).value] + rest;
        forall k | 0 < k < |defs|
          ensures DecodeDefinition(data, defs[k], valueOf) == Success(ds[k])
        {
          assert defs[1..][k - 1] == defs[k];
        }
      } else if DecodeDefinition(data, defs[0], valueOf).Success? {
        var k :| 0 <= k < |defs[1..]| && DecodeDefinition(data, defs[1..][k], valueOf).Failure?;
        assert defs[1..][k] == defs[k + 1];
      }
    }
  }

  /** Conversely, when every definition decodes, the list decodes to their entries in order. */
  lemma {:induction false} DecodeDefinitionsFromEntries<N>(data: JobDataMap, defs: seq<string>, ds: seq<Option<Decoded<N>>>,
                                                           valueOf: (TypeTag, Option<string>) -> Result<N, Exc>)
    requires |ds| == |defs|
    requires forall k :: 0 <= k < |defs| ==> DecodeDefinition(data, defs[k], valueOf) == Success(ds[k])
    ensures DecodeDefinitions(data, defs, valueOf) == Success(ds)
  {
    if defs != [] {
      forall k | 0 <= k < |defs[1..]|
        ensures DecodeDefinition(data, defs[1..][k], valueOf) == Success(ds[1..][k])
      {
        assert defs[1..][k] == defs[k + 1];
      }
      DecodeDefinitionsFromEntries(data, defs[1..], ds[1..], valueOf);
      assert ds == [ds[0]] + ds[1..];
    }
  }

  /** The first definition that fails decides the exception; the later ones are never looked at. */
  lemma {:induction false} DecodeDefinitionsFirstFailure<N>(data: JobDataMap, defs: seq<string>, k: nat,
                                                             valueOf: (TypeTag, Option<string>) -> Result<N, Exc>)
    requires k < |defs|
    requires forall j :: 0 <= j < k ==> DecodeDefinition(data, defs[j], valueOf).Success?
    requires DecodeDefinition(data, defs[k], valueOf).Failure?
    ensures DecodeDefinitions(data, defs, valueOf) == Failure(DecodeDefinition(data, defs[k], valueOf).error)
  {
    if k > 0 {
      forall j | 0 <= j < k - 1
        ensures DecodeDefinition(data, defs[1..][j], valueOf).Success?
      {
        assert defs[1..][j] == defs[j + 1];
      }
      assert defs[1..][k - 1] == defs[k];
      DecodeDefinitionsFirstFailure(data, defs[1..], k - 1, valueOf);
    }
  }

  /**
   * `JMX_PARAMDEFS` decoded into `params` and `types`: one entry per comma-separated
   * definition; an entry is left null exactly when its type character names no type;
   * otherwise `types[k]` is the named type's class name and `params[k]` the named
   * entry converted to that type.
   */
  lemma ParamDefsEntries<N>(data: JobDataMap, value: string, valueOf: (TypeTag, Option<string>) -> Result<N, Exc>)
    requires DecodeParamDefs(data, value, valueOf).Success?
    ensures var defs, arrays := Tokens(value, ","), DecodeParamDefs(data, value, valueOf).value;
      && |arrays.params| == |arrays.types| == |defs|
      && forall k :: 0 <= k < |defs| ==>
           var parts := Tokens(defs[k], ":");
           && 2 <= |parts| && parts[0] != []
           && (arrays.types[k].None? <==> TagOf(parts[0][0]).None?)
           && (arrays.params[k].None? <==> TagOf(parts[0][0]).None?)
           && (TagOf(parts[0][0]).Some? ==>
                 && GetString(data, parts[1]).Success?
                 && ConvertParam(TagOf(parts[0][0]).value, GetString(data, parts[1]).value, valueOf).Success?
                 && arrays.types[k] == Some(TypeName(TagOf(parts[0][0]).value))
                 && arrays.params[k] ==
                      Some(ConvertParam(TagOf(parts[0][0]).value, GetString(data, parts[1]).value, valueOf).value))
  {
    var defs := Tokens(value, ",");
    DecodeDefinitionsPointwise(data, defs, valueOf);
    forall k | 0 <= k < |defs|
      ensures 2 <= |Tokens(defs[k], ":")| && Tokens(defs[k], ":")[0] != []
    {
      TokensWellFormed(defs[k], ":");
    }
  }

  /**
   * A definition with fewer than two `:`-separated parts is refused: some colons, at most
   * one colon-free part, then some colons (`s`, `s:`, `:fname`, `::` and the empty string).
   */
  lemma DefinitionMissingPartIsInvalid<N>(data: JobDataMap, lead: string, part: string, trail: string,
                                          valueOf: (TypeTag, Option<string>) -> Result<N, Exc>)
    requires forall j :: 0 <= j < |lead| ==> lead[j] == ':'
    requires NoDelimiters(part, ":")
    requires forall j :: 0 <= j < |trail| ==> trail[j] == ':'
    ensures DecodeDefinition(data, lead + part + trail, valueOf) == Failure(InvalidDefinition(lead + part + trail))
  {
    var def := lead + part + trail;
    assert def == lead + (part + trail);
    LeadingDelimitersSkipped(lead, part + trail, ":");
    LeadingDelimitersSkipped(trail, [], ":");
    assert trail + [] == trail;
    if part != [] {
      assert (part + trail)[..|part|] == part;
      assert (part + trail)[|part|..] == trail;
      TokenAt(part + trail, ":", |part|);
    } else {
      assert part + trail == trail;
    }
    assert |Tokens(def, ":")| < 2;
  }

  /**
   * Only the first character of the type part and the name part matter: `s:x` and
   * `string:x` decode alike, and parts after the second are ignored.
   */
  lemma OnlyTypeCharacterAndNameMatter<N>(data: JobDataMap, def1: string, def2: string,
                                          valueOf: (TypeTag, Option<string>) -> Result<N, Exc>)
    requires 2 <= |Tokens(def1, ":")| && 2 <= |Tokens(def2, ":")|
    requires Tokens(def1, ":")[0] != [] && Tokens(def2, ":")[0] != []
    requires Tokens(def1, ":")[0][0] == Tokens(def2, ":")[0][0]
    requires Tokens(def1, ":")[1] == Tokens(def2, ":")[1]
    ensures DecodeDefinition(data, def1, valueOf) == DecodeDefinition(data, def2, valueOf)
  {
  }

  /** What one turn of the key loop leaves alone: a field no key of the turn names keeps its value. */
  lemma {:induction false} ScanKeysKeepsUnnamedFields<N>(data: JobDataMap, keys: seq<string>, read: Invocation<N>,
                                                         valueOf: (TypeTag, Option<string>) -> Result<N, Exc>)
    requires ScanKeys(data, keys, read, valueOf).Success?
    ensures (forall i :: 0 <= i < |keys| ==> !EqualsIgnoreCase(ObjectNameKey, keys[i])) ==>
              ScanKeys(data, keys, read, valueOf).value.objName == read.objName
    ensures (forall i :: 0 <= i < |keys| ==> !EqualsIgnoreCase(MethodKey, keys[i])) ==>
              ScanKeys(data, keys, read, valueOf).value.objMethod == read.objMethod
    ensures (forall i :: 0 <= i < |keys| ==> !EqualsIgnoreCase(ParamDefsKey, keys[i])) ==>
              && ScanKeys(data, keys, read, valueOf).value.params == read.params
              && ScanKeys(data, keys, read, valueOf).value.types == read.types
  {
    if keys != [] {
      var next := ScanKey(data, keys[0], read, valueOf).value;
      ScanKeysKeepsUnnamedFields(data, keys[1..], next, valueOf);
      forall i | 0 <= i < |keys[1..]|
        ensures keys[1..][i] == keys[i + 1]
      {
      }
    }
  }

  /** A key names at most one reserved field: the three reserved names differ in length. */
  lemma ReservedKeysDistinct(key: string)
    ensures EqualsIgnoreCase(ObjectNameKey, key) ==> !EqualsIgnoreCase(MethodKey, key) && !EqualsIgnoreCase(ParamDefsKey, key)
    ensures EqualsIgnoreCase(MethodKey, key) ==> !EqualsIgnoreCase(ParamDefsKey, key)
  {
    assert |ObjectNameKey| == 14 && |MethodKey| == 10 && |ParamDefsKey| == 13;
  }

  /**
   * The last key naming a field, ignoring case, decides that field, whatever came before:
   * the object name and the operation are that key's string (or null), and the arrays are
   * the decoding of that key's definitions.
   */
  lemma {:induction false} LastNamingKeyDecides<N>(data: JobDataMap, keys: seq<string>, read: Invocation<N>,
                                                   valueOf: (TypeTag, Option<string>) -> Result<N, Exc>, j: nat)
    requires ScanKeys(data, keys, read, valueOf).Success?
    requires j < |keys|
    ensures (EqualsIgnoreCase(ObjectNameKey, keys[j]) &&
             forall i :: j < i < |keys| ==> !EqualsIgnoreCase(ObjectNameKey, keys[i])) ==>
              && GetString(data, keys[j]).Success?
              && ScanKeys(data, keys, read, valueOf).value.objName == GetString(data, keys[j]).value
    ensures (EqualsIgnoreCase(MethodKey, keys[j]) &&
             forall i :: j < i < |keys| ==> !EqualsIgnoreCase(MethodKey, keys[i])) ==>
              && GetString(data, keys[j]).Success?
              && ScanKeys(data, keys, read, valueOf).value.objMethod == GetString(data, keys[j]).value
    ensures (EqualsIgnoreCase(ParamDefsKey, keys[j]) &&
             forall i :: j < i < |keys| ==> !EqualsIgnoreCase(ParamDefsKey, keys[i])) ==>
              && GetString(data, keys[j]).Success?
              && GetString(data, keys[j]).value.Some?
              && DecodeParamDefs(data, GetString(data, keys[j]).value.value, valueOf).Success?
              && ScanKeys(data, keys, read, valueOf).value.params
                 == Some(DecodeParamDefs(data, GetString(data, keys[j]).value.value, valueOf).value.params)
              && ScanKeys(data, keys, read, valueOf).value.types
                 == Some(DecodeParamDefs(data, GetString(data, keys[j]).value.value, valueOf).value.types)
  {
    var next := ScanKey(data, keys[0], read, valueOf).value;
    forall i | 0 <= i < |keys[1..]|
      ensures keys[1..][i] == keys[i + 1]
    {
    }
    if j == 0 {
      ReservedKeysDistinct(keys[0]);
      ScanKeysKeepsUnnamedFields(data, keys[1..], next, valueOf);
    } else {
      LastNamingKeyDecides(data, keys[1..], next, valueOf, j - 1);
    }
  }

  /**
   * With `jo` and `jm` the last keys naming the object and the operation, decoding succeeds
   * exactly when neither of their values is null, and then invokes that object and operation;
   * otherwise it fails with "Required parameters missing".
   */
  lemma DecodeFromLastKeys<N>(data: JobDataMap, keys: seq<string>, valueOf: (TypeTag, Option<string>) -> Result<N, Exc>,
                              jo: nat, jm: nat)
    requires ScanKeys(data, keys, Invocation(None, None, None, None), valueOf).Success?
    requires jo < |keys| && EqualsIgnoreCase(ObjectNameKey, keys[jo])
    requires forall i :: jo < i < |keys| ==> !EqualsIgnoreCase(ObjectNameKey, keys[i])
    requires jm < |keys| && EqualsIgnoreCase(MethodKey, keys[jm])
    requires forall i :: jm < i < |keys| ==> !EqualsIgnoreCase(MethodKey, keys[i])
    ensures GetString(data, keys[jo]).Success? && GetString(data, keys[jm]).Success?
    ensures Decode(data, keys, valueOf).Success? <==>
              GetString(data, keys[jo]) != Success(None) && GetString(data, keys[jm]) != Success(None)
    ensures Decode(data, keys, valueOf).Success? ==>
              && Decode(data, keys, valueOf).value.objName == GetString(data, keys[jo]).value
              && Decode(data, keys, valueOf).value.objMethod == GetString(data, keys[jm]).value
    ensures Decode(data, keys, valueOf).Failure? ==> Decode(data, keys, valueOf).error == RequiredMissing
  {
    LastNamingKeyDecides(data, keys, Invocation(None, None, None, None), valueOf, jo);
    LastNamingKeyDecides(data, keys, Invocation(None, None, None, None), valueOf, jm);
  }

  /** Without a key naming the object, or without one naming the operation, nothing is invoked. */
  lemma RequiredKeysMissing<N>(data: JobDataMap, keys: seq<string>, valueOf: (TypeTag, Option<string>) -> Result<N, Exc>)
    requires (forall i :: 0 <= i < |keys| ==> !EqualsIgnoreCase(ObjectNameKey, keys[i]))
          || (forall i :: 0 <= i < |keys| ==> !EqualsIgnoreCase(MethodKey, keys[i]))
    ensures Decode(data, keys, valueOf).Failure?
    ensures ScanKeys(data, keys, Invocation(None, None, None, None), valueOf).Success? ==>
              Decode(data, keys, valueOf) == Failure(RequiredMissing)
  {
    if ScanKeys(data, keys, Invocation(None, None, None, None), valueOf).Success? {
      ScanKeysKeepsUnnamedFields(data, keys, Invocation(None, None, None, None), valueOf);
    }
  }

  /** Whether one key's turn completes does not depend on what the earlier turns read. */
  lemma ScanKeyOutcomeIgnoresRead<N>(data: JobDataMap, key: string, r1: Invocation<N>, r2: Invocation<N>,
                                     valueOf: (TypeTag, Option<string>) -> Result<N, Exc>)
    ensures ScanKey(data, key, r1, valueOf).Success? == ScanKey(data, key, r2, valueOf).Success?
  {
  }

  /**
   * Every key is read with `getString`, reserved or not: one entry holding a non-string
   * object aborts the job, with the `ClassCastException` once every earlier key's turn completed.
   */
  lemma {:induction false} NonStringEntryFails<N>(data: JobDataMap, keys: seq<string>, read: Invocation<N>, i: nat,
                                                  valueOf: (TypeTag, Option<string>) -> Result<N, Exc>)
    requires i < |keys| && keys[i] in data && data[keys[i]].Other?
    ensures ScanKeys(data, keys, read, valueOf).Failure?
    ensures (forall j :: 0 <= j < i ==> ScanKey(data, keys[j], read, valueOf).Success?) ==>
              ScanKeys(data, keys, read, valueOf) == Failure(NotAString)
  {
    if i > 0 && ScanKey(data, keys[0], read, valueOf).Success? {
      var next := ScanKey(data, keys[0], read, valueOf).value;
      assert keys[1..][i - 1] == keys[i];
      NonStringEntryFails(data, keys[1..], next, i - 1, valueOf);
      if forall j :: 0 <= j < i ==> ScanKey(data, keys[j], read, valueOf).Success? {
        forall j | 0 <= j < i - 1
          ensures ScanKey(data, keys[1..][j], next, valueOf).Success?
        {
          assert keys[1..][j] == keys[j + 1];
          ScanKeyOutcomeIgnoresRead(data, keys[j + 1], read, next, valueOf);
        }
      }
    }
  }

  /** The data of a worked example: reserved keys in mixed case, and the entries definitions name. */
  const ExampleData: JobDataMap := map[
    "jmx_objectname" := Str("quartz:type=Greeter"),
    "Jmx_Method" := Str("greet"),
    "fname" := Str("Ada"),
    "loud" := Str("TRUE")]

  /** A conversion that refuses everything; the examples name no numeric type. */
  const RefuseNumbers: (TypeTag, Option<string>) -> Result<int, Exc> :=
    (t: TypeTag, s: Option<string>) => Failure(Exc("java.lang.NumberFormatException", s))

  /** A `<type>:<name>` definition splits into its two parts. */
  lemma DefinitionParts(def: string, typePart: string, name: string)
    requires typePart != [] && name != []
    requires NoDelimiters(typePart, ":") && NoDelimiters(name, ":")
    requires def == typePart + ":" + name
    ensures Tokens(def, ":") == [typePart, name]
  {
    assert Join([typePart, name], ':') == def;
    SplitJoinRoundTrip([typePart, name], ':', ":");
  }

  /** A definition that splits into a type part and a name is decided by the type character and the name. */
  lemma TwoPartDefinition<N>(data: JobDataMap, def: string, typePart: string, name: string,
                             valueOf: (TypeTag, Option<string>) -> Result<N, Exc>)
    requires Tokens(def, ":") == [typePart, name]
    ensures typePart != []
    ensures DecodeDefinition(data, def, valueOf) == DecodeNamed(data, TagOf(typePart[0]), name, valueOf)
  {
    TokensWellFormed(def, ":");
    assert Tokens(def, ":")[0] == typePart;
  }

  /** `s:fname` passes the named entry's string through. */
  lemma StringDefinitionExample(def: string)
    requires def == "s:fname"
    ensures DecodeDefinition(ExampleData, def, RefuseNumbers)
            == Success(Some(Decoded(StringParam(Some("Ada")), "java.lang.String")))
  {
    DefinitionParts(def, "s", "fname");
    TwoPartDefinition(ExampleData, def, "s", "fname", RefuseNumbers);
    assert TagOf('s') == Some(StringType);
    assert GetString(ExampleData, "fname") == Success(Some("Ada"));
  }

  /** `B:loud` converts "TRUE" to a `Boolean` true: `Boolean.valueOf` ignores case. */
  lemma BooleanDefinitionExample(def: string)
    requires def == "B:loud"
    ensures DecodeDefinition(ExampleData, def, RefuseNumbers)
            == Success(Some(Decoded(BooleanParam(true), "java.lang.Boolean")))
  {
    DefinitionParts(def, "B", "loud");
    TwoPartDefinition(ExampleData, def, "B", "loud", RefuseNumbers);
    assert TagOf('B') == Some(BooleanWrapper);
    assert GetString(ExampleData, "loud") == Success(Some("TRUE"));
    assert EqualsIgnoreCase("TRUE", "true");
  }

  /** `x:ignored` is left unset, and its missing entry is never read. */
  lemma UnknownDefinitionExample(def: string)
    requires def == "x:ignored"
    ensures DecodeDefinition(ExampleData, def, RefuseNumbers) == Success(None)
  {
    DefinitionParts(def, "x", "ignored");
    TwoPartDefinition(ExampleData, def, "x", "ignored", RefuseNumbers);
    assert TagOf('x') == None;
  }

  /** A numeric definition fails with whatever the conversion throws. */
  lemma NumericDefinitionExample(def: string)
    requires def == "i:fname"
    ensures DecodeDefinition(ExampleData, def, RefuseNumbers)
            == Failure(Exc("java.lang.NumberFormatException", Some("Ada")))
  {
    DefinitionParts(def, "i", "fname");
    TwoPartDefinition(ExampleData, def, "i", "fname", RefuseNumbers);
  }

  /**
   * The reserved keys are matched whatever their case, in the order `getKeys` hands them
   * out, and the other keys leave the invocation alone.
   */
  lemma DecodeExample()
    ensures Decode(ExampleData, ["fname", "jmx_objectname", "loud", "Jmx_Method"], RefuseNumbers)
            == Success(Invocation(Some("quartz:type=Greeter"), Some("greet"), None, None))
  {
    var keys := ["fname", "jmx_objectname", "loud", "Jmx_Method"];
    var r0: Invocation<int> := Invocation(None, None, None, None);
    var r1 := r0.(objName := Some("quartz:type=Greeter"));
    var r2 := r1.(objMethod := Some("greet"));
    assert ScanKey(ExampleData, keys[0], r0, RefuseNumbers) == Success(r0) by {
      assert GetString(ExampleData, "fname") == Success(Some("Ada"));
    }
    assert ScanKey(ExampleData, keys[1], r0, RefuseNumbers) == Success(r1) by {
      assert GetString(ExampleData, "jmx_objectname") == Success(Some("quartz:type=Greeter"));
      assert EqualsIgnoreCase(ObjectNameKey, "jmx_objectname");
    }
    assert ScanKey(ExampleData, keys[2], r1, RefuseNumbers) == Success(r1) by {
      assert GetString(ExampleData, "loud") == Success(Some("TRUE"));
    }
    assert ScanKey(ExampleData, keys[3], r1, RefuseNumbers) == Success(r2) by {
      assert GetString(ExampleData, "Jmx_Method") == Success(Some("greet"));
      assert EqualsIgnoreCase(MethodKey, "Jmx_Method");
    }
    assert ScanKeys(ExampleData, keys[4..], r2, RefuseNumbers) == Success(r2);
    assert ScanKeys(ExampleData, keys[3..], r1, RefuseNumbers) == Success(r2);
    assert ScanKeys(ExampleData, keys[2..], r1, RefuseNumbers) == Success(r2);
    assert ScanKeys(ExampleData, keys[1..], r0, RefuseNumbers) == Success(r2);
  }

  /**
   * The key loop of `execute`: `getString` on every key, the three reserved keys recognised
   * whatever their case, a later occurrence replacing an earlier one, then the required-key check.
   */
  method DecodeJobData<N>(data: JobDataMap, keys: seq<string>, valueOf: (TypeTag, Option<string>) -> Result<N, Exc>)
    returns (r: Result<Invocation<N>, Exc>)
    ensures r == Decode(data, keys, valueOf)
  {
    var objName: Option<string> := None;
    var objMethod: Option<string> := None;
    var params: Option<seq<Option<Param<N>>>> := None;
    var types: Option<seq<Option<string>>> := None;
    for i := 0 to |keys|
      invariant ScanKeys(data, keys[i..], Invocation(objName, objMethod, params, types), valueOf)
                == ScanKeys(data, keys, Invocation(None, None, None, None), valueOf)
    {
      assert keys[i..][1..] == keys[i + 1..];
      var value := GetString(data, keys[i]);
      if value.Failure? {
        return Failure(value.error);
      }
      if EqualsIgnoreCase(ObjectNameKey, keys[i]) {
        objName := value.value;
      } else if EqualsIgnoreCase(MethodKey, keys[i]) {
        objMethod := value.value;
      } else if EqualsIgnoreCase(ParamDefsKey, keys[i]) {
        if value.value.None? {
          return Failure(NullParamDefs);
        }
        var arrays := ParseParamDefs(data, value.value.value, valueOf);
        if arrays.Failure? {
          return Failure(arrays.error);
        }
        params, types := Some(arrays.value.params), Some(arrays.value.types);
      }
    }
    assert keys[|keys|..] == [];
    if objName.None? || objMethod.None? {
      return Failure(RequiredMissing);
    }
    return Success(Invocation(objName, objMethod, params, types));
  }

  /**
   * One turn of the inner loop of `execute`: split the definition at colons, refuse it
   * when a part is missing, and dispatch on the type part's first character.
   */
  method DecodeOneDefinition<N>(data: JobDataMap, def: string, valueOf: (TypeTag, Option<string>) -> Result<N, Exc>)
    returns (r: Result<Option<Decoded<N>>, Exc>)
    ensures r == DecodeDefinition(data, def, valueOf)
  {
    var parts := Split(def, ":");
    if |parts| < 2 {
      return Failure(InvalidDefinition(def));
    }
    TokensWellFormed(def, ":");
    var tag := TagOf(parts[0][0]);
    if tag.None? {
      return Success(None);
    }
    var raw := GetString(data, parts[1]);
    if raw.Failure? {
      return Failure(raw.error);
    }
    var param := ConvertParam(tag.value, raw.value, valueOf);
    if param.Failure? {
      return Failure(param.error);
    }
    return Success(Some(Decoded(param.value, TypeName(tag.value))));
  }

  /** One turn of the `k` loop: a decoded entry is stored at index `k`; an unset one leaves both arrays null there. */
  method StoreEntry<N>(params: array<Option<Param<N>>>, types: array<Option<string>>, k: nat, entry: Option<Decoded<N>>)
    requires params != types as object
    requires k < params.Length == types.Length
    requires params[k].None? && types[k].None?
    modifies params, types
    ensures params[..k + 1] == old(params[..k]) + [if entry.Some? then Some(entry.value.param) else None]
    ensures types[..k + 1] == old(types[..k]) + [if entry.Some? then Some(entry.value.typeName) else None]
    ensures forall j :: k < j < params.Length ==> params[j] == old(params[j]) && types[j] == old(types[j])
  {
    if entry.Some? {
      params[k] := Some(entry.value.param);
      types[k] := Some(entry.value.typeName);
    }
  }

  /**
   * The inner loop of `execute`: `split` at commas, fresh `params` and `types` arrays
   * (all null), and each definition's entry stored at its index.
   */
  method ParseParamDefs<N>(data: JobDataMap, value: string, valueOf: (TypeTag, Option<string>) -> Result<N, Exc>)
    returns (r: Result<ParamArrays<N>, Exc>)
    ensures r == DecodeParamDefs(data, value, valueOf)
  {
    var paramdefs := Split(value, ",");
    var params := new Option<Param<N>>[|paramdefs|](_ => None);
    var types := new Option<string>[|paramdefs|](_ => None);
    ghost var done: seq<Option<Decoded<N>>> := [];
    for k := 0 to |paramdefs|
      invariant |done| == k
      invariant forall j :: 0 <= j < k ==> DecodeDefinition(data, paramdefs[j], valueOf) == Success(done[j])
      invariant params[..k] == ArraysOf(done).params
      invariant types[..k] == ArraysOf(done).types
      invariant forall j :: k <= j < |paramdefs| ==> params[j].None? && types[j].None?
    {
      var entry := DecodeOneDefinition(data, paramdefs[k], valueOf);
      if entry.Failure? {
        DecodeDefinitionsFirstFailure(data, paramdefs, k, valueOf);
        return Failure(entry.error);
      }
      ArraysOfAppend(done, entry.value);
      StoreEntry(params, types, k, entry.value);
      ghost var before := done;
      done := done + [entry.value];
      forall j | 0 <= j < k + 1
        ensures DecodeDefinition(data, paramdefs[j], valueOf) == Success(done[j])
      {
        if j < k {
          assert done[j] == before[j];
        }
      }
    }
    DecodeDefinitionsFromEntries(data, paramdefs, done, valueOf);
    assert params[..] == params[..|paramdefs|];
    assert types[..] == types[..|paramdefs|];
    return Success(ParamArrays(params[..], types[..]));
  }

  /** What `execute` ends in: the invocation's result, or the exception it caught on the way. */
  function Run<N>(data: JobDataMap, keys: seq<string>, valueOf: (TypeTag, Option<string>) -> Result<N, Exc>,
                  invoke: Invocation<N> -> Result<Value, Exc>): Result<Value, Exc>
  {
    var invocation :- Decode(data, keys, valueOf);
    invoke(invocation)
  }

  /** The exception handed back to the scheduler. */
  datatype JobExecutionException = JobExecutionException(message: string, cause: Exc, refireImmediately: bool)

  function Wrap(e: Exc): JobExecutionException {
    JobExecutionException("Caught a " + e.className + " exception : " + MessageText(e), e, false)
  }

  /**
   * `JMXInvokerJob.execute`: on success the invocation's result becomes the context's
   * result; any exception, from the decoding or from the invocation, comes back wrapped,
   * with the context's result untouched and no immediate refire requested.
   */
  method Execute<N>(context: ExecutionContexts.JobExecutionContext, keys: seq<string>,
                    valueOf: (TypeTag, Option<string>) -> Result<N, Exc>,
                    invoke: Invocation<N> -> Result<Value, Exc>)
    returns (thrown: Option<JobExecutionException>)
    requires KeyOrder(keys, context.mergedJobDataMap)
    modifies context`result
    ensures var outcome := Run(context.mergedJobDataMap, keys, valueOf, invoke);
      && (outcome.Success? ==> thrown.None? && context.result == outcome.value)
      && (outcome.Failure? ==>
            && thrown == Some(Wrap(outcome.error))
            && !thrown.value.refireImmediately
            && thrown.value.message == "Caught a " + outcome.error.className + " exception : " + MessageText(outcome.error)
            && context.result == old(context.result))
  {
    var decoded := DecodeJobData(context.mergedJobDataMap, keys, valueOf);
    if decoded.Failure? {
      return Some(Wrap(decoded.error));
    }
    var outcome := invoke(decoded.value);
    if outcome.Failure? {
      return Some(Wrap(outcome.error));
    }
    context.SetResult(outcome.value);
    return None;
  }
}
