# Quartz scheduler core, modelled in Dafny

This project models four pieces of the Quartz job scheduler and proves what they promise:

- **`AndMatcher`** (`and_matcher.dfy`, module `Matchers`): the matcher that combines two
  operand matchers with a logical AND. Construction refuses a null operand. `isMatch` is
  the conjunction of the operands. `equals` is structural and `hashCode` is the usual
  31-based combination in 32-bit `int` arithmetic. Every matcher that is not an AND is a
  leaf whose `isMatch` and `hashCode` are parameters.
- **`JobExecutionContextImpl`** (`execution_context.dfy`, module `ExecutionContexts`): a
  class whose constructor copies the fired bundle and merges the job's and the trigger's
  data maps, with the trigger winning. Its methods update the refire count (wrapping like a
  Java `int`), the result, the run time and the private `put`/`get` side channel.
  `getRecoveringTriggerKey` reads the original trigger's name and group back from the
  merged map, or throws when the context is not recovering.
- **The lock-row protocol of `UpdateLockRowSemaphore.obtainLock`** (`lock_semaphore.dfy`,
  module `LockSemaphore`): it is pinned down by the behaviour its unit tests fix.
  - UPDATE the lock row. If a row was touched, the lock is held. If none was, INSERT the row.
  - An `SQLException` ends the attempt. After two failed attempts the caller gets a
    `LockException`.
  - The database is a scripted connection. `ObtainLock` is a loop proved equal to the
    recursive specification `ObtainLockSpec`.
- **`JMXInvokerJob`** (`tokenizer.dfy` and `jmx_invoker.dfy`, modules `Tokenizer` and
  `JmxInvoker`):
  - `split`, a `StringTokenizer` loop, proved equal to a token function. Its tokens are
    non-empty and delimiter-free, it keeps every non-delimiter character, and it undoes a
    join.
  - The key-scanning loop of `execute`: it recognises `JMX_OBJECTNAME`, `JMX_METHOD` and
    `JMX_PARAMDEFS` whatever their case.
  - The decoding of `<type>:<name>` parameter definitions into the parallel `params` and
    `types` arrays.
  - The required-parameter check.
  - The wrapping of every failure into a `JobExecutionException` that does not refire.

Shared pieces:
- `wrappers.dfy`: `Option` for Java `null` and `Result` for a thrown exception.
- `java_lang.dfy`: `int` wrap-around, exceptions as (class name, message), and
  `equalsIgnoreCase`.
- `data_maps.dfy`: the `JobDataMap` as a map from strings to values, with `getString` and
  `putAll`.

Calls into code outside the model are parameters of the model:
- the leaf matchers;
- the numeric `valueOf` conversions;
- the managed-bean invocation.

## Model

| member | source | states |
|---|---|---|
| JavaLang.WrapInt32 | quartz/src/main/java/org/quartz/impl/matchers/AndMatcher.java:67-70 | Java `int` arithmetic: an in-range value is kept; otherwise the result is congruent to the exact value modulo 2^32 |
| DataMaps.GetString | quartz-jobs/src/main/java/org/quartz/jobs/ee/jmx/JMXInvokerJob.java:84 | `getString` throws a `ClassCastException` exactly for a non-string object. It gives null exactly for a missing key or a stored null, and the string for a stored string |
| DataMaps.PutAll | quartz/src/main/java/org/quartz/impl/JobExecutionContextImpl.java:105-107 | the merged map has the keys of both maps; the source map's value wins; target-only keys keep their values |
| DataMaps.PutAllPrecedenceExample | quartz/src/main/java/org/quartz/impl/JobExecutionContextImpl.java:105-107 | a job map {a:1} under a trigger map {a:2, b:3} merges to {a:2, b:3} |
| Matchers.NewAnd | quartz/src/main/java/org/quartz/impl/matchers/AndMatcher.java:35-48 | construction succeeds iff both operands are non-null, keeping them as left and right; otherwise it throws `IllegalArgumentException("Two non-null operands required!")` |
| Matchers.AndIsConjunction | quartz/src/main/java/org/quartz/impl/matchers/AndMatcher.java:50-53 | an AND matches a key iff both operands match it |
| Matchers.MatchesIffAllLeavesMatch | quartz/src/main/java/org/quartz/impl/matchers/AndMatcher.java:50-53 | a nest of ANDs matches a key iff every leaf matcher in it matches the key |
| Matchers.EqualsRefusesNullAndOtherClasses | quartz/src/main/java/org/quartz/impl/matchers/AndMatcher.java:75-81 | an AND is never equal to null or to a matcher of another class |
| Matchers.EqualsIsStructural | quartz/src/main/java/org/quartz/impl/matchers/AndMatcher.java:75-91 | `equals` holds iff the two matchers are the same tree |
| Matchers.AndEqualsIffOperandsEqual | quartz/src/main/java/org/quartz/impl/matchers/AndMatcher.java:82-90 | two ANDs are equal iff their left operands are equal and their right operands are equal |
| Matchers.EqualsIsEquivalence | quartz/src/main/java/org/quartz/impl/matchers/AndMatcher.java:74-91 | `equals` is reflexive, symmetric and transitive |
| Matchers.EqualMatchersHashAlike | quartz/src/main/java/org/quartz/impl/matchers/AndMatcher.java:63-91 | equal matchers have equal hash codes |
| Matchers.HashFormula | quartz/src/main/java/org/quartz/impl/matchers/AndMatcher.java:64-72 | for every pair of operands the hash is 31·(31·1 + left) + right, wrapped to a 32-bit int as Java's int arithmetic does |
| Matchers.HashOfSmallOperands | quartz/src/main/java/org/quartz/impl/matchers/AndMatcher.java:64-72 | with small operand hashes the hash is exactly 961 + 31·left + right |
| Matchers.HashWrapsAround | quartz/src/main/java/org/quartz/impl/matchers/AndMatcher.java:64-72 | operand hashes 2^31-1 and 0 give 930 - 2^31: the computation wraps like Java `int` |
| ExecutionContexts.JobExecutionContext.constructor | quartz/src/main/java/org/quartz/impl/JobExecutionContextImpl.java:92-108 | every bundle field is copied. The merged map holds the keys of both maps, the trigger's value winning. The refire count starts at 0, the run time at -1, the result null, and the side channel empty |
| ExecutionContexts.JobExecutionContext.RecoveringTriggerKey | quartz/src/main/java/org/quartz/impl/JobExecutionContextImpl.java:146-153 | not recovering iff it throws `IllegalStateException("Not a recovering job")`. When recovering, it fails only when a reserved entry is not a string. String entries give the key (name, group) |
| ExecutionContexts.JobExecutionContext.IncrementRefireCount | quartz/src/main/java/org/quartz/impl/JobExecutionContextImpl.java:155-164 | the count goes up by one and wraps from `Integer.MAX_VALUE` to `Integer.MIN_VALUE`; nothing else changes |
| ExecutionContexts.JobExecutionContext.SetResult | quartz/src/main/java/org/quartz/impl/JobExecutionContextImpl.java:229-238 | the result becomes the given value; nothing else changes |
| ExecutionContexts.JobExecutionContext.SetJobRunTime | quartz/src/main/java/org/quartz/impl/JobExecutionContextImpl.java:243-252 | the run time becomes the given value; nothing else changes |
| ExecutionContexts.JobExecutionContext.Put | quartz/src/main/java/org/quartz/impl/JobExecutionContextImpl.java:257-266 | `get` of the key then gives the value, every other key reads as before, and nothing else changes |
| LockSemaphore.ObtainLock | quartz/src/test/java/org/quartz/impl/jdbcjobstore/UpdateLockRowSemaphoreTest.java:52-111 | the retry loop returns exactly the result and statement sequence of the recursive protocol `ObtainLockSpec` |
| LockSemaphore.FirstUpdateAcquires | quartz/src/test/java/org/quartz/impl/jdbcjobstore/UpdateLockRowSemaphoreTest.java:52-63 | an UPDATE touching a row on the first try holds the lock after that one statement |
| LockSemaphore.UpdateErrorIsRetried | quartz/src/test/java/org/quartz/impl/jdbcjobstore/UpdateLockRowSemaphoreTest.java:65-77 | an `SQLException` on the first UPDATE is retried, and a good second UPDATE holds the lock |
| LockSemaphore.TwoUpdateErrorsFail | quartz/src/test/java/org/quartz/impl/jdbcjobstore/UpdateLockRowSemaphoreTest.java:79-95 | two failing UPDATEs end in `LockException` after exactly two statements |
| LockSemaphore.ZeroRowsFallsThroughToInsert | quartz/src/test/java/org/quartz/impl/jdbcjobstore/UpdateLockRowSemaphoreTest.java:97-111 | an UPDATE touching no row is followed at once by an INSERT, which holds the lock |
| LockSemaphore.TestedScenarios | quartz/src/test/java/org/quartz/impl/jdbcjobstore/UpdateLockRowSemaphoreTest.java:52-111 | the four scripted connections of the tests give the results and statement sequences the tests expect |
| LockSemaphore.StatementBounds | quartz/src/test/java/org/quartz/impl/jdbcjobstore/UpdateLockRowSemaphoreTest.java:52-111 | every script: the first statement is an UPDATE; at most 2 UPDATEs; no more INSERTs than UPDATEs; each INSERT follows an UPDATE that touched no row; `LockException` only after 2 UPDATEs |
| Tokenizer.Split | quartz-jobs/src/main/java/org/quartz/jobs/ee/jmx/JMXInvokerJob.java:160-171 | the tokenizer loop returns exactly the tokens of the string, in order |
| Tokenizer.TokensWellFormed | quartz-jobs/src/main/java/org/quartz/jobs/ee/jmx/JMXInvokerJob.java:160-171 | no token is empty and no token holds a delimiter |
| Tokenizer.TokensKeepEveryCharacter | quartz-jobs/src/main/java/org/quartz/jobs/ee/jmx/JMXInvokerJob.java:160-171 | the tokens concatenated are the string with its delimiters removed |
| Tokenizer.SplitJoinRoundTrip | quartz-jobs/src/main/java/org/quartz/jobs/ee/jmx/JMXInvokerJob.java:160-171 | splitting non-empty, delimiter-free tokens joined with a delimiter gives the tokens back |
| Tokenizer.LeadingDelimitersSkipped | quartz-jobs/src/main/java/org/quartz/jobs/ee/jmx/JMXInvokerJob.java:160-171 | delimiters in front of a string add no token |
| JmxInvoker.TagTable | quartz-jobs/src/main/java/org/quartz/jobs/ee/jmx/JMXInvokerJob.java:98-143 | exactly the characters `iIlLfFdDsbB` name a type. `i l f d b` name the primitive types and `s` the `String` class; `S` names nothing |
| JmxInvoker.WrapperTags | quartz-jobs/src/main/java/org/quartz/jobs/ee/jmx/JMXInvokerJob.java:98-143 | the upper-case form of a primitive type's letter names `java.lang.` plus that type's wrapper class |
| JmxInvoker.DefinitionParts | quartz-jobs/src/main/java/org/quartz/jobs/ee/jmx/JMXInvokerJob.java:94 | a definition `type:name` splits at colons into the two parts |
| JmxInvoker.DefinitionMissingPartIsInvalid | quartz-jobs/src/main/java/org/quartz/jobs/ee/jmx/JMXInvokerJob.java:94-97 | every definition with fewer than two `:`-separated parts (colons, at most one colon-free part, colons: `s`, `s:`, `:fname`, `::`, the empty string) throws "Invalid parameter definition: required parts missing " followed by the definition |
| JmxInvoker.TwoPartDefinition | quartz-jobs/src/main/java/org/quartz/jobs/ee/jmx/JMXInvokerJob.java:94-143 | a definition that splits into a type part and a name decodes through the switch on the type part's first character and that name alone |
| JmxInvoker.OnlyTypeCharacterAndNameMatter | quartz-jobs/src/main/java/org/quartz/jobs/ee/jmx/JMXInvokerJob.java:94-98 | two definitions with the same first type character and the same name part decode alike, whatever else they hold |
| JmxInvoker.DecodeDefinitionsPointwise | quartz-jobs/src/main/java/org/quartz/jobs/ee/jmx/JMXInvokerJob.java:93-144 | the definitions decode iff each one does; entry k then comes from definition k |
| JmxInvoker.DecodeDefinitionsFromEntries | quartz-jobs/src/main/java/org/quartz/jobs/ee/jmx/JMXInvokerJob.java:93-144 | when each definition decodes, the list decodes to those entries in order |
| JmxInvoker.DecodeDefinitionsFirstFailure | quartz-jobs/src/main/java/org/quartz/jobs/ee/jmx/JMXInvokerJob.java:93-144 | the first definition that fails decides the exception |
| JmxInvoker.ParamDefsEntries | quartz-jobs/src/main/java/org/quartz/jobs/ee/jmx/JMXInvokerJob.java:90-144 | one `params`/`types` entry per comma-separated definition. An entry is null iff its type character names no type. Otherwise the type entry is the type's class name and the parameter is the named entry converted to that type |
| JmxInvoker.ScanKeysKeepsUnnamedFields | quartz-jobs/src/main/java/org/quartz/jobs/ee/jmx/JMXInvokerJob.java:83-146 | a field (object name, operation, or the arrays) keeps its value across keys none of which names it, ignoring case |
| JmxInvoker.LastNamingKeyDecides | quartz-jobs/src/main/java/org/quartz/jobs/ee/jmx/JMXInvokerJob.java:83-146 | after a successful key loop, the object name and the operation are the string values of the last keys naming them (ignoring case), and the arrays are the decoding of the last parameter-definitions key, whose value is then a non-null string that decodes without error |
| JmxInvoker.DecodeFromLastKeys | quartz-jobs/src/main/java/org/quartz/jobs/ee/jmx/JMXInvokerJob.java:83-150 | when the key loop succeeds and both names occur, decoding succeeds exactly when neither last value is null; it then invokes exactly those values, and otherwise fails with "Required parameters missing" |
| JmxInvoker.RequiredKeysMissing | quartz-jobs/src/main/java/org/quartz/jobs/ee/jmx/JMXInvokerJob.java:148-150 | without a key naming the object, or one naming the operation, decoding fails. It fails with "Required parameters missing" when the key loop itself succeeded |
| JmxInvoker.NonStringEntryFails | quartz-jobs/src/main/java/org/quartz/jobs/ee/jmx/JMXInvokerJob.java:83-84 | any entry holding a non-string object makes the key loop fail; when every earlier key's turn completed (a decoded `JMX_PARAMDEFS` included), the failure is the `ClassCastException` |
| JmxInvoker.StringDefinitionExample | quartz-jobs/src/main/java/org/quartz/jobs/ee/jmx/JMXInvokerJob.java:131-134 | `s:fname` passes the entry's string through with type `java.lang.String` |
| JmxInvoker.BooleanDefinitionExample | quartz-jobs/src/main/java/org/quartz/jobs/ee/jmx/JMXInvokerJob.java:139-142 | `B:loud` with "TRUE" gives a `Boolean` true with type `java.lang.Boolean` |
| JmxInvoker.UnknownDefinitionExample | quartz-jobs/src/main/java/org/quartz/jobs/ee/jmx/JMXInvokerJob.java:98-143 | `x:ignored` leaves the entry unset without reading the (missing) named entry |
| JmxInvoker.NumericDefinitionExample | quartz-jobs/src/main/java/org/quartz/jobs/ee/jmx/JMXInvokerJob.java:99-102 | a failing number conversion aborts the decoding with the conversion's exception |
| JmxInvoker.DecodeExample | quartz-jobs/src/main/java/org/quartz/jobs/ee/jmx/JMXInvokerJob.java:83-89 | `jmx_objectname` and `Jmx_Method` are recognised; other keys change nothing |
| JmxInvoker.DecodeOneDefinition | quartz-jobs/src/main/java/org/quartz/jobs/ee/jmx/JMXInvokerJob.java:94-143 | one turn of the inner loop (split at colons, the missing-part check, the switch on the type character) returns exactly the decoding specification of the definition |
| JmxInvoker.StoreEntry | quartz-jobs/src/main/java/org/quartz/jobs/ee/jmx/JMXInvokerJob.java:98-143 | a decoded entry is stored at index k of both arrays, an unset one leaves both null there, and no other index changes |
| JmxInvoker.ParseParamDefs | quartz-jobs/src/main/java/org/quartz/jobs/ee/jmx/JMXInvokerJob.java:90-144 | the array-filling loop over the split definitions returns exactly the decoded `params` and `types` contents, or the first definition's exception |
| JmxInvoker.DecodeJobData | quartz-jobs/src/main/java/org/quartz/jobs/ee/jmx/JMXInvokerJob.java:80-150 | the key loop and the required-parameter check return exactly the decoding specification `Decode` |
| JmxInvoker.Execute | quartz-jobs/src/main/java/org/quartz/jobs/ee/jmx/JMXInvokerJob.java:80-157 | on success the invocation's result becomes the context's result. Otherwise the context is unchanged and the exception is wrapped with message "Caught a <class> exception : <message>" and no refire |

## Left out

- The managed-bean lookup and invocation (`JMXInvokerJob.invoke`) are a function
  parameter: they need a running MBean server.
- The numeric conversions `Integer.valueOf`, `Long.valueOf`, `Float.valueOf` and
  `Double.valueOf` are one function parameter that may throw. Number parsing and floating
  point are not modelled. `Boolean.valueOf` is modelled.
- Logging (`getLog().error`) is left out: it has no effect on results.
- `UpdateLockRowSemaphore` and its base class are not part of this model. The protocol
  follows what `UpdateLockRowSemaphoreTest.java` fixes, with these choices:
  - the retry count is 2;
  - an INSERT holds the lock when it adds exactly one row, and any other count fails the
    attempt;
  - a non-SQL throwable escapes;
  - the SQL text, the statement preparation and any back-off between attempts are left out.
- An UPDATE that touches no row goes straight to the INSERT in the same attempt, as
  `testFallThroughToInsert` fixes; no second UPDATE is issued before it.
- `JobDataMap`, `TriggerKey`, `Scheduler` and `TriggerFiredBundle` are not part of this
  model. The reserved key names and the `getString` behaviour are restated in the model.
  `TriggerKey`'s own normalisation (a null name refused, a null group defaulted) is left out.
- `ExecutionContexts.JobExecutionContext.RecoveringTriggerKey` returns the raw name and
  group, null included, because the key class's constructor is not modelled.
- `getMergedJobDataMap` hands out the live map in the source. Here it is the field itself,
  so a job changing the map through that alias is not modelled.
- `getFireInstanceId`, `toString` and serialization are left out. The first needs the
  trigger implementation; the other two have no behaviour to prove.
- The plain getters of both classes are left out as operations. They are the fields of the
  class, or of the `Matcher` datatype for `getLeftOperand`/`getRightOperand`.
- `equals` and `hashCode` of `AndMatcher` test for null operands, but construction refuses
  them, so those branches are unreachable and are not modelled. Leaf matchers are equal
  when they are the same leaf.
- `String.equalsIgnoreCase` is modelled for ASCII letters only. Unicode case folding is
  left out.
- The message of the `NullPointerException` that a null `JMX_PARAMDEFS` value causes
  inside the tokenizer is modelled as null.
- `params` and `types` are returned as sequence values rather than arrays. A `String`
  parameter whose entry is null is a `StringParam(None)`, which is distinct from an unset
  entry. In Java both are a null `params[k]`, but `types[k]` tells them apart.
