# fast-proxy core in Dafny

`FastProxy` builds proxy classes at run time for a set of interfaces. The
generated class sends every interface method to a `MethodInterceptor`, and
each method comes with a non-reflective `MethodInvoker` that calls the
target directly. This project models the decision-making part of that
engine as pure Dafny functions and proves properties about it:

- **Normalizer** (`normalizer.dfy`) covers the request side of
  `newProxyInstance` and `getProxyType`. The requested interfaces are
  sorted by (name, hashCode). The set is rejected when it contains a class
  that is not an interface, contains a repeated interface, or mixes
  packages among its non-public interfaces. The proxy class name is then
  chosen: `com.alphalxy.$Proxy<n>`, or `<pkg>$Proxy<n>` when some interface
  is non-public.
- **Registry** (`registry.dfy`) is the state machine. It covers the proxy
  counter, the class cache keyed by loader and sorted interfaces, the
  constructor cache behind `isProxyClass` and `isProxyInstance`, and the
  class names each loader has defined, which `defineClass` checks.
- **Synthesizer** (`synthesizer.dfy`) describes the shape of the generated
  class. It enumerates the forwarded methods and numbers them, and it
  names the `M_<i>` fields and the `lambda$<name>$<i>` thunks. It assigns
  the local-variable slot of each parameter and emits the argument and
  return instruction sequences. Its class-file summary of names and
  descriptors is what decides a duplicate-method ClassFormatError.
- **Bytecode** (`bytecode.dfy`) covers the instruction helpers:
  `visitIntConstant`, `getLoadOpcode`, `getReturnOpcode`, `visitBox` and
  `visitUnboxOrCheckCast`. These are checked against a small stack-typing
  semantics taken from the Java Virtual Machine Specification.
- **Text** (`text.dfy`) holds the string operations the engine relies on:
  decimal rendering of the counter, `lastIndexOf`, `replace` and
  `String.compareTo` order. **Wrappers** (`wrappers.dfy`) holds `Option`
  and `Result`.

Java `null` arguments are `Option.None`. Exceptions are the `Failure`
values of a `Result`. The mutable static maps and the `AtomicLong`
counter are fields of an immutable `Engine` value, which each operation
returns as its new state. A class loader is modelled only through the set
of class names it has already loaded. Whether the virtual machine accepts
a class file is decided by the duplicate-method rule of section 4.6 of
the Java Virtual Machine Specification. That rule is the failure the
repository's own test `testFail` expects.

## Model

| member | source | states |
|---|---|---|
| Text.Decimal | src/main/java/com/alphalxy/FastProxy.java:261 | the decimal rendering of the counter is a non-empty string of digits |
| Text.ParseDecimalOfDecimal | src/main/java/com/alphalxy/FastProxy.java:261-263 | reading the digits back gives the counter value, so the rendering loses nothing |
| Text.DecimalInjective | src/main/java/com/alphalxy/FastProxy.java:261-263 | different counter values render as different digit strings |
| Text.LastIndexOf | src/main/java/com/alphalxy/FastProxy.java:246 | the result is -1 or an index holding the character, and no later index holds it |
| Text.LastIndexOfSplit | src/main/java/com/alphalxy/FastProxy.java:246 | in `a + c + b` with no `c` in `b`, the last `c` is at `|a|` |
| Text.Replace | src/main/java/com/alphalxy/FastProxy.java:263 | `String.replace(char, char)` changes exactly the occurrences of the first character, position by position |
| Text.ReplaceConcat | src/main/java/com/alphalxy/FastProxy.java:263 | replacement distributes over concatenation |
| Text.ReplaceAbsent | src/main/java/com/alphalxy/FastProxy.java:263 | replacing a character that does not occur changes nothing |
| Text.LessIrreflexive | src/main/java/com/alphalxy/FastProxy.java:56 | no name compares below itself |
| Text.LessAsymmetric | src/main/java/com/alphalxy/FastProxy.java:56 | two names never both compare below each other |
| Text.LessTransitive | src/main/java/com/alphalxy/FastProxy.java:56 | name order is transitive |
| Text.LessTotal | src/main/java/com/alphalxy/FastProxy.java:56 | any two different names are ordered one way or the other |
| Bytecode.IntConstant | src/main/java/com/alphalxy/FastProxy.java:620-630 | the chosen `iconst`/`bipush`/`sipush` pushes exactly i if and only if -1 <= i <= 32767, once opcode bytes and operands are truncated and sign-extended |
| Bytecode.LoadOpcode | src/main/java/com/alphalxy/FastProxy.java:636-656 | the load instruction reads the parameter type's computational type (int-like, long, float, double, reference) |
| Bytecode.ReturnOpcode | src/main/java/com/alphalxy/FastProxy.java:662-682 | the return instruction returns the return type's computational type |
| Bytecode.Width | src/main/java/com/alphalxy/FastProxy.java:353-355 | a parameter takes two slots exactly when it is long or double |
| Bytecode.BoxCode | src/main/java/com/alphalxy/FastProxy.java:530-552 | a primitive is boxed by its own wrapper's static `valueOf`, and a reference gets no instruction |
| Bytecode.UnboxCode | src/main/java/com/alphalxy/FastProxy.java:557-589 | a primitive is cast to its wrapper and unboxed by the accessor returning it; other references are cast; `Object` gets nothing |
| Bytecode.BoxYieldsReference | src/main/java/com/alphalxy/FastProxy.java:352 | boxing leaves a reference on the stack for `aastore` and `areturn` |
| Bytecode.UnboxFromObject | src/main/java/com/alphalxy/FastProxy.java:369 | unboxing an `Object` leaves exactly the declared type on the stack |
| Bytecode.UnboxFromRef | src/main/java/com/alphalxy/FastProxy.java:586-588 | a reference already of the target type passes its own cast |
| Bytecode.BoxUnboxRoundTrip | src/main/java/com/alphalxy/FastProxy.java:530-589 | box then unbox gives back the original type: the box wrapper is the unbox wrapper |
| Normalizer.KeyLeqTotal | src/main/java/com/alphalxy/FastProxy.java:56-57 | the (name, hashCode) comparator is total |
| Normalizer.KeyLeqTransitive | src/main/java/com/alphalxy/FastProxy.java:56-57 | the comparator is transitive |
| Normalizer.KeyLeqAntisymmetric | src/main/java/com/alphalxy/FastProxy.java:56-57 | the comparator ties only classes with equal name and hashCode |
| Normalizer.Insert | src/main/java/com/alphalxy/FastProxy.java:57 | inserting into a sorted sequence keeps it sorted and adds exactly the one element |
| Normalizer.Sort | src/main/java/com/alphalxy/FastProxy.java:54-57 | the sorted copy is ordered by (name, hashCode) and is a permutation of the request |
| Normalizer.SortedUnique | src/main/java/com/alphalxy/FastProxy.java:54-61 | two sorted permutations of one key-injective collection are equal |
| Normalizer.SortedSameHead | src/main/java/com/alphalxy/FastProxy.java:54-61 | two sorted permutations of one key-injective collection start with the same class |
| Normalizer.SortPermutationInvariant | src/main/java/com/alphalxy/FastProxy.java:54-61 | any two orders of the same interfaces sort to the same key when (name, hashCode) tells classes apart |
| Normalizer.PackageOf | src/main/java/com/alphalxy/FastProxy.java:245-247 | the package is the longest prefix ending with '.', or "" when the name has no '.' |
| Normalizer.PackageOfUnique | src/main/java/com/alphalxy/FastProxy.java:245-247 | those three properties determine the package |
| Normalizer.ProxyPackageSpec | src/main/java/com/alphalxy/FastProxy.java:244-249 | the recorded package is absent exactly when every interface is public, and otherwise is the package of one non-public interface |
| Normalizer.ProxyPackageOfOnePackage | src/main/java/com/alphalxy/FastProxy.java:248-252 | when all non-public interfaces share a package, the recorded package is that one |
| Normalizer.AllInterfacesSnoc | src/main/java/com/alphalxy/FastProxy.java:237-239 | one more class keeps the set all-interfaces exactly when it is an interface |
| Normalizer.OnePackageSnoc | src/main/java/com/alphalxy/FastProxy.java:244-253 | one more class keeps the non-public interfaces in one package exactly when it is public, nothing was recorded yet, or it is in the recorded package |
| Normalizer.DistinctSnoc | src/main/java/com/alphalxy/FastProxy.java:254-256 | one more class keeps the set free of repeats exactly when it is new |
| Normalizer.AcceptableSnoc | src/main/java/com/alphalxy/FastProxy.java:236-257 | a set is acceptable after one more class exactly when it was acceptable and the new class passes the three checks |
| Normalizer.AdmitsOrOffends | src/main/java/com/alphalxy/FastProxy.java:237-256 | each class either passes the three checks or triggers the first of them that fails |
| Normalizer.ValidateFromSpec | src/main/java/com/alphalxy/FastProxy.java:236-257 | the validation loop succeeds exactly on acceptable sets and otherwise reports the first failing class's first failing check |
| Normalizer.AcceptablePrefix | src/main/java/com/alphalxy/FastProxy.java:236-257 | every prefix of an acceptable set is acceptable |
| Normalizer.CheckInterfaces | src/main/java/com/alphalxy/FastProxy.java:233-257 | validation succeeds if and only if the set is acceptable, then yields the proxy package; otherwise it reports the first offence in order |
| Normalizer.ProxySuffixPlain | src/main/java/com/alphalxy/FastProxy.java:261-263 | `$Proxy<n>` has no '/' or '.', and starts with '$' |
| Normalizer.DefaultPackageDotted | src/main/java/com/alphalxy/FastProxy.java:261 | the default internal package `com/alphalxy/` reads as `com.alphalxy.` |
| Normalizer.DottedRoundTrip | src/main/java/com/alphalxy/FastProxy.java:263 | a package without '/' survives conversion to internal form and back |
| Normalizer.ProxyClassNameSplit | src/main/java/com/alphalxy/FastProxy.java:259-264 | the class name is the dotted package followed by `$Proxy<n>` |
| Normalizer.ProxyClassName | src/main/java/com/alphalxy/FastProxy.java:259-264 | the name is `com.alphalxy.$Proxy<n>` with only public interfaces, otherwise the interfaces' package followed by `$Proxy<n>` |
| Normalizer.SerialOfProxyClassName | src/main/java/com/alphalxy/FastProxy.java:261-263 | the counter value can be read back from the chosen name |
| Normalizer.SerialOfSplit | src/main/java/com/alphalxy/FastProxy.java:261-263 | whatever precedes `$Proxy<n>`, the digits after it read back as n |
| Normalizer.ProxyClassNamesDistinct | src/main/java/com/alphalxy/FastProxy.java:261-263 | names chosen with different counter values differ, whatever their packages |
| Normalizer.PackageOfAppend | src/main/java/com/alphalxy/FastProxy.java:245-247 | a package prefix followed by a dot-free simple name has that prefix as its package |
| Normalizer.ProxyPackageShape | src/main/java/com/alphalxy/FastProxy.java:247-249 | the recorded package is "" or ends with '.', and has no '/' when no interface name does |
| Normalizer.ProxyClassPackage | src/main/java/com/alphalxy/FastProxy.java:258-264 | the proxy class lands in the non-public interfaces' package, or in `com.alphalxy` when all are public |
| Synthesizer.EnumerateMethods | src/main/java/com/alphalxy/FastProxy.java:212-221 | exactly the non-static methods are forwarded, interfaces in key order and methods in `getMethods` order, indexed 0, 1, 2, ... |
| Synthesizer.FieldNamesDistinct | src/main/java/com/alphalxy/FastProxy.java:273 | `M_<i>` and `M_<j>` are equal if and only if i = j |
| Synthesizer.DecimalHasNoDollar | src/main/java/com/alphalxy/FastProxy.java:272 | the index digits contain no '$' |
| Synthesizer.LambdaNameIndex | src/main/java/com/alphalxy/FastProxy.java:272 | the index can be read back after the last '$' of a thunk name |
| Synthesizer.LambdaNamesDistinct | src/main/java/com/alphalxy/FastProxy.java:272 | thunks of different entries have different names, even for methods of one name |
| Synthesizer.SlotsDisjoint | src/main/java/com/alphalxy/FastProxy.java:343-358 | a parameter's slots end before the next parameter's begin, and parameter j sits between slots 1 + j and 1 + 2j |
| Synthesizer.SlotBounds | src/main/java/com/alphalxy/FastProxy.java:343-358 | slot i lies between 1 + i and 1 + 2i |
| Synthesizer.EmitForwardArgs | src/main/java/com/alphalxy/FastProxy.java:343-358 | argument i is stored with the load for its type, from slot 1 plus the widths of the earlier parameters |
| Synthesizer.LocalVariableSlots | src/main/java/com/alphalxy/FastProxy.java:376-383 | the debug table gives each parameter the slot the forwarding loop loaded it from |
| Synthesizer.ForwardingReturn | src/main/java/com/alphalxy/FastProxy.java:365-371 | void methods end with `return`; others turn the interceptor's `Object` into the declared type and return its computational type |
| Synthesizer.ThunkReturn | src/main/java/com/alphalxy/FastProxy.java:424-430 | the thunk always ends with `areturn`, returning `null` for void and a boxed reference otherwise |
| Synthesizer.ArgumentRoundTrip | src/main/java/com/alphalxy/FastProxy.java:343-358 | argument i is stored at array index i and read back from index i, and boxing then unboxing restores its type |
| Synthesizer.ProxyMethods | src/main/java/com/alphalxy/FastProxy.java:207-221 | the class declares `<init>(MethodInterceptor)` first and the static initializer `<clinit>()V` second; entry k then has its forwarding method at position 2+2k and its `(Object, Object[]) -> Object` thunk at 3+2k, two methods per entry and nothing else |
| Synthesizer.NewProxyClass | src/main/java/com/alphalxy/FastProxy.java:193-226 | the class carries the requested name and implements the interfaces in order with `.` turned into `/`; field 0 is `interceptor` and field 1+k is `M_<k>`; the k-th proxied method gets its forwarding method at 2+2k and its thunk at 3+2k |
| Synthesizer.SharedSignatureRejected | src/test/java/com/alphalxy/test/FastProxyTest.java:81-86 | two forwarded methods with one name, parameter list and return type make the class file contain a duplicate method |
| Synthesizer.FieldsDistinct | src/main/java/com/alphalxy/FastProxy.java:205 | the generated fields never clash |
| Synthesizer.ThunksDistinct | src/main/java/com/alphalxy/FastProxy.java:270-282 | thunk methods never clash with each other |
| Registry.DefineClass | src/main/java/com/alphalxy/FastProxy.java:687-709 | definition fails with IllegalStateException exactly when the loader has the name already, with ClassFormatError exactly on a duplicate method, and otherwise adds only that name to only that loader |
| Registry.DefineOnce | src/main/java/com/alphalxy/FastProxy.java:690-695 | a name once defined in a loader can never be defined there again |
| Registry.Normalise | src/main/java/com/alphalxy/FastProxy.java:49-63 | NullPointerException exactly when the loader, interceptor, array or an element is null; otherwise the key is the sorted permutation, and either the set is acceptable and the package is chosen, or the first offence is reported |
| Registry.NormaliseOrderInsensitive | src/main/java/com/alphalxy/FastProxy.java:54-63 | permuted requests normalise identically |
| Registry.Instantiate | src/main/java/com/alphalxy/FastProxy.java:68-76 | `isProxyInstance` answers true for the returned object afterwards; registering a class already cached under some key keeps the engine invariant; only the constructor cache changes |
| Registry.NewProxyInstance | src/main/java/com/alphalxy/FastProxy.java:49-80 | null and invalid requests leave the state unchanged; a validated call advances the counter by one; a cache hit returns the stored class and defines nothing; a miss succeeds exactly when the name chosen from the old counter is not loaded and the class file declares no method twice, and then defines it in the requesting loader only, caches it and registers its constructor; an already-loaded name fails with IllegalStateException before the duplicate check, otherwise a duplicate fails with ClassFormatError; a failed definition changes only the counter; maps and loaders only grow |
| Registry.InitInv | src/main/java/com/alphalxy/FastProxy.java:109-113 | the fresh engine satisfies the registry invariant |
| Registry.IsProxyClass | src/main/java/com/alphalxy/FastProxy.java:90-92 | NullPointerException exactly for null; under the invariant, true exactly for classes cached under some key |
| Registry.IsProxyInstance | src/main/java/com/alphalxy/FastProxy.java:102-104 | NullPointerException exactly for null; otherwise the answer for the object's class |
| Registry.CacheNewClassKeepsInv | src/main/java/com/alphalxy/FastProxy.java:64-74 | caching a class numbered by the current counter under a new key keeps the invariant |
| Registry.FreshSerialNotCached | src/main/java/com/alphalxy/FastProxy.java:64-67 | a class numbered with the current counter is none of the classes already cached |
| Registry.NewProxyInstancePreservesInv | src/main/java/com/alphalxy/FastProxy.java:49-80 | every call keeps the invariant: the constructor cache equals the cached classes, each is loaded by its key's loader with a serial below the counter, and different keys have different classes |
| Registry.ReturnedInstanceIsProxy | src/main/java/com/alphalxy/FastProxy.java:64-76 | whatever `newProxyInstance` returns is afterwards a proxy instance of a proxy class |
| Registry.RepeatedRequestReusesClass | src/main/java/com/alphalxy/FastProxy.java:54-67 | repeating a successful request in any order returns the same class and defines nothing |
| Registry.SharedSignatureFailsRequest | src/test/java/com/alphalxy/test/FastProxyTest.java:81-86 | interfaces sharing a method signature fail with ClassFormatError on the chosen name and change only the counter |
| Registry.AscendingCons | src/main/java/com/alphalxy/FastProxy.java:261-263 | a name numbered below the serial numbers of the rest extends an ascending sequence |
| Registry.ServeAdvances | src/main/java/com/alphalxy/FastProxy.java:261-263 | a call's chosen name carries the counter it found, and the counter advances exactly when a name was chosen |
| Registry.RunSerials | src/main/java/com/alphalxy/FastProxy.java:261-263 | along any sequence of calls, chosen names carry strictly increasing serial numbers within the counter's range |
| Registry.ChosenNamesDistinct | src/main/java/com/alphalxy/FastProxy.java:261-263 | the names chosen along any sequence of calls are pairwise distinct |

## Left out

- Class-file encoding is not modelled: descriptors, constant pool, ASM call order, labels, `visitMaxs` and the bytes of `toByteArray`. The model keeps only names, descriptors and instruction sequences.
- The `invokedynamic` wiring to `LambdaMetafactory` (`bootstrapMethodArguments`, `getBootstrapMethodHandle`) is a fixed call sequence with no decision in it.
- `visitConstructor` is a fixed instruction sequence, and only its descriptor appears in the class-file summary. `visitFieldInitializer` and `visitClassConstant` depend on the parameter types: they build the `Class[]` argument of `getMethod` and pick the `TYPE` field of the wrapper class for each primitive. They are left out as descriptor wiring, like the `invokedynamic` call site. Only the `M_<i>` field names they initialise are modelled.
- The `Unsafe` access hack and the mirror class that make `ClassLoader` methods callable are outside the model. Reflection on loaders is abstracted to the set of loaded names.
- Concurrency is not modelled. `computeIfAbsent` atomicity and concurrent callers are outside the sequential model, so two threads racing for one key are not covered.
- The interceptor, the invoker and the runtime dispatch of calls are not modelled. Instantiation is represented by the `ProxyObj` value only.
- The `InternalError` branches of `visitBox`, `visitUnboxOrCheckCast`, `newProxyInstance` and the descriptor lookups cannot occur in the model. `ValueType` has only the eight primitive kinds and references, and `void` is a separate `ReturnType`.
- Registry.DefineClass: other `LinkageError`s the virtual machine may raise (verification errors, security exceptions, name mismatches) are not modelled. Only the already-loaded check and the duplicate-method rule are.
- Normalizer.Sort: stability is not stated. Two classes can only tie when they have equal name and hashCode, and the permutation lemmas need those keys to be distinct anyway.
- Text.Less: `String.compareTo` compares UTF-16 code units, while Dafny characters are Unicode scalar values. The two orders agree for characters in the Basic Multilingual Plane, which covers Java identifiers in practice.
- Registry.RepeatedRequestReusesClass: it requires (name, hashCode) to tell the requested classes apart. Two distinct classes with equal name and hashCode can sort differently and yield a second key.
- The counter is an unbounded `nat`. The source's `AtomicLong` wraps after 2^63 increments, and that is not modelled.
- Synthesizer.ArgumentRoundTrip: it requires at most 32768 parameters. The virtual machine allows at most 255, so `visitIntConstant` never truncates in practice.
- Java generics and bridge methods are not modelled. Each interface method is reduced to its name, erased parameter types, return type and static flag. Default methods need no separate case. They are non-static, so the proxy forwards them to the interceptor like abstract ones (`PublicInterface.testReturnByte` in the tests).
