/** The registry of `FastProxy`: the proxy counter, the class cache keyed by
    loader and sorted interfaces, the constructor cache, and the classes each
    loader has defined; `newProxyInstance`, `defineClass`, `isProxyClass` and
    `isProxyInstance` as functions from one state to the next. */
module Registry {
  import opened Wrappers
  import opened Normalizer
  import opened Synthesizer

  /** A class loader, by identity. */
  type LoaderId = nat

  /** A method interceptor, by identity. */
  type Interceptor = nat

  /** A loaded class: its defining loader and binary name identify it. */
  datatype ClassRef = ClassRef(loader: LoaderId, name: string)

  /** An object: a plain one, or a proxy instance holding its interceptor. */
  datatype Obj = Plain(cls: ClassRef) | ProxyObj(cls: ClassRef, interceptor: Interceptor)

  /** The cache key: the loader followed by the sorted interfaces. */
  datatype Key = Key(loader: LoaderId, interfaces: seq<Iface>)

  /** The engine state: `COUNTER`, `PROXY_CLASSES`, the key set of
      `PROXY_CONSTRUCTORS`, and the class names each loader has defined. */
  datatype Engine = Engine(counter: nat, classes: map<Key, ClassRef>, constructors: set<ClassRef>,
                           loaded: map<LoaderId, set<string>>)

  /** The exceptions the engine throws: NullPointerException,
      IllegalArgumentException, IllegalStateException from `defineClass`, and
      the ClassFormatError the virtual machine raises on a duplicate method. */
  datatype Failure = NullPointer | IllegalArgument(violation: Violation) | IllegalState(name: string)
                   | ClassFormat(name: string)

  /** A call's outcome together with the state after it. */
  datatype Step<T> = Step(result: Result<T, Failure>, after: Engine)

  /** A freshly started engine: nothing generated yet; the loaders may
      already hold classes of their own. */
  function Init(loaded: map<LoaderId, set<string>>): Engine
  {
    Engine(0, map[], {}, loaded)
  }

  function Loaded(loaded: map<LoaderId, set<string>>, l: LoaderId): set<string>
  {
    if l in loaded then loaded[l] else {}
  }

  // ---------------------------------------------------------------------------
  // defineClass

  /** A successful definition: the class and the loaders afterwards. */
  datatype Defined = Defined(cls: ClassRef, loaded: map<LoaderId, set<string>>)

  /** `defineClass`: refuse a name the loader has already loaded
      (IllegalStateException); otherwise the virtual machine defines the
      class, unless its methods clash (ClassFormatError). Only the target
      loader changes, and only by the new name. */
  function DefineClass(loaded: map<LoaderId, set<string>>, loader: LoaderId, name: string, cf: ClassFile)
    : (r: Result<Defined, Failure>)
    ensures r.Ok? <==> name !in Loaded(loaded, loader) && !HasDuplicateMethod(cf)
    ensures name in Loaded(loaded, loader) ==> r == Err(IllegalState(name))
    ensures name !in Loaded(loaded, loader) && HasDuplicateMethod(cf) ==> r == Err(ClassFormat(name))
    ensures r.Ok? ==> r.value.cls == ClassRef(loader, name)
    ensures r.Ok? ==> Loaded(r.value.loaded, loader) == Loaded(loaded, loader) + {name}
    ensures r.Ok? ==> forall l :: l != loader ==> Loaded(r.value.loaded, l) == Loaded(loaded, l)
  {
    var names := Loaded(loaded, loader);
    if name in names then Err(IllegalState(name))
    else if HasDuplicateMethod(cf) then Err(ClassFormat(name))
    else Ok(Defined(ClassRef(loader, name), loaded[loader := names + {name}]))
  }

  /** A name is defined at most once per loader: once defined, defining it
      again fails whatever the class file. */
  lemma DefineOnce(loaded: map<LoaderId, set<string>>, loader: LoaderId, name: string, cf: ClassFile, cf': ClassFile)
    requires DefineClass(loaded, loader, name, cf).Ok?
    ensures DefineClass(DefineClass(loaded, loader, name, cf).value.loaded, loader, name, cf') == Err(IllegalState(name))
  {
  }

  // ---------------------------------------------------------------------------
  // newProxyInstance

  predicate HasNull(xs: seq<Option<Iface>>)
  {
    exists i :: 0 <= i < |xs| && xs[i].None?
  }

  function Present(xs: seq<Option<Iface>>): (r: seq<Iface>)
    requires !HasNull(xs)
    ensures |r| == |xs|
    ensures forall i :: 0 <= i < |xs| ==> xs[i] == Some(r[i])
  {
    seq(|xs|, i requires 0 <= i < |xs| => xs[i].value)
  }

  /** What the validation half of `newProxyInstance` yields: the cache key
      and the package the proxy class goes to. */
  datatype Normal = Normal(key: Key, pkg: Option<string>)

  /** The part of `newProxyInstance` before the caches are consulted: the
      null checks, the sorted copy and key, and `getProxyType`'s checks. Any
      null argument or element is a NullPointerException; an unacceptable
      set is an IllegalArgumentException naming the first offending class
      in sorted order. */
  function Normalise(loader: Option<LoaderId>, interfaces: Option<seq<Option<Iface>>>, interceptor: Option<Interceptor>)
    : (r: Result<Normal, Failure>)
    ensures r == Err(NullPointer) <==>
      loader.None? || interceptor.None? || interfaces.None? || HasNull(interfaces.value)
    ensures r.Err? && r.error != NullPointer ==>
      r.error.IllegalArgument? && !Acceptable(Sort(Present(interfaces.value)))
      && exists k :: FirstOffence(Sort(Present(interfaces.value)), k, r.error.violation)
    ensures r.Ok? ==> loader.Some? && interfaces.Some? && !HasNull(interfaces.value)
    ensures r.Ok? ==> r.value.key.loader == loader.value
    ensures r.Ok? ==> Sorted(r.value.key.interfaces)
    ensures r.Ok? ==> multiset(r.value.key.interfaces) == multiset(Present(interfaces.value))
    ensures r.Ok? ==> Acceptable(r.value.key.interfaces)
    ensures r.Ok? ==> r.value.pkg == ProxyPackage(r.value.key.interfaces)
  {
    if loader.None? || interceptor.None? || interfaces.None? || HasNull(interfaces.value) then Err(NullPointer)
    else
      var sorted := Sort(Present(interfaces.value));
      match CheckInterfaces(sorted)
      case Err(v) => Err(IllegalArgument(v))
      case Ok(pkg) => Ok(Normal(Key(loader.value, sorted), pkg))
  }

  /** The order of the requested interfaces does not matter: permutations of
      the same classes normalise identically when (name, hashCode) tells
      different classes apart. */
  lemma NormaliseOrderInsensitive(loader: Option<LoaderId>, p: seq<Option<Iface>>, q: seq<Option<Iface>>,
                                  interceptor: Option<Interceptor>)
    requires !HasNull(p) && !HasNull(q)
    requires multiset(Present(p)) == multiset(Present(q))
    requires KeyInjective(Present(p))
    ensures Normalise(loader, Some(p), interceptor) == Normalise(loader, Some(q), interceptor)
  {
    SortPermutationInvariant(Present(p), Present(q));
  }

  /** Registering a class in the constructor cache and instantiating it:
      the new object is a proxy instance afterwards, and registering a
      class that is already cached under some key keeps the invariant. */
  function Instantiate(e: Engine, cls: ClassRef, interceptor: Interceptor): (s: Step<Obj>)
    ensures s.result == Ok(ProxyObj(cls, interceptor))
    ensures s.after.constructors == e.constructors + {cls}
    ensures s.after == e.(constructors := s.after.constructors)
    ensures IsProxyInstance(s.after, Some(s.result.value)) == Ok(true)
    ensures Inv(e) && cls in e.classes.Values ==> Inv(s.after)
  {
    Step(Ok(ProxyObj(cls, interceptor)), e.(constructors := e.constructors + {cls}))
  }

  /** `newProxyInstance`. Null arguments and invalid interface sets leave
      the whole state unchanged. Every validated call advances the counter
      by exactly one. A cached key returns its class without defining
      anything. A new key defines `$Proxy<counter>` and caches it exactly
      when that name is not yet loaded and the class file declares no method
      twice; otherwise it fails with IllegalStateException (checked first) or
      ClassFormatError, leaving caches and loaders unchanged. Caches and
      loaders only grow, and a returned instance belongs to the cached class
      of its key, now registered in the constructor cache. */
  function NewProxyInstance(e: Engine, loader: Option<LoaderId>, interfaces: Option<seq<Option<Iface>>>,
                            interceptor: Option<Interceptor>): (s: Step<Obj>)
    ensures var n := Normalise(loader, interfaces, interceptor);
      n.Err? ==> s == Step(Err(n.error), e)
    ensures var n := Normalise(loader, interfaces, interceptor);
      n.Ok? ==> s.after.counter == e.counter + 1
    ensures var n := Normalise(loader, interfaces, interceptor);
      n.Ok? && n.value.key in e.classes ==>
        s == Step(Ok(ProxyObj(e.classes[n.value.key], interceptor.value)),
                  e.(counter := e.counter + 1, constructors := e.constructors + {e.classes[n.value.key]}))
    ensures var n := Normalise(loader, interfaces, interceptor);
      n.Ok? && n.value.key !in e.classes && s.result.Ok? ==>
        var cls := ClassRef(loader.value, ProxyClassName(n.value.pkg, e.counter));
        && ProxyClassName(n.value.pkg, e.counter) !in Loaded(e.loaded, loader.value)
        && s.result.value == ProxyObj(cls, interceptor.value)
        && s.after.classes == e.classes[n.value.key := cls]
        && Loaded(s.after.loaded, loader.value) == Loaded(e.loaded, loader.value) + {cls.name}
        && s.after.constructors == e.constructors + {cls}
        && (forall l :: l != loader.value ==> Loaded(s.after.loaded, l) == Loaded(e.loaded, l))
    ensures var n := Normalise(loader, interfaces, interceptor);
      n.Ok? && n.value.key !in e.classes && s.result.Err? ==>
        s.after == e.(counter := e.counter + 1)
        && (s.result.error == IllegalState(ProxyClassName(n.value.pkg, e.counter))
            || s.result.error == ClassFormat(ProxyClassName(n.value.pkg, e.counter)))
    ensures var n := Normalise(loader, interfaces, interceptor);
      n.Ok? && n.value.key !in e.classes ==>
        var name := ProxyClassName(n.value.pkg, e.counter);
        var cf := NewProxyClass(n.value.key.interfaces, ProxyInternalName(n.value.pkg, e.counter));
        && (s.result.Ok? <==> name !in Loaded(e.loaded, loader.value) && !HasDuplicateMethod(cf))
        && (name in Loaded(e.loaded, loader.value) ==> s.result == Err(IllegalState(name)))
        && (name !in Loaded(e.loaded, loader.value) && HasDuplicateMethod(cf) ==> s.result == Err(ClassFormat(name)))
    ensures forall k :: k in e.classes ==> k in s.after.classes && s.after.classes[k] == e.classes[k]
    ensures e.constructors <= s.after.constructors
    ensures forall l :: Loaded(e.loaded, l) <= Loaded(s.after.loaded, l)
    ensures s.result.Ok? ==> var n := Normalise(loader, interfaces, interceptor);
      n.Ok? && n.value.key in s.after.classes
      && s.result.value == ProxyObj(s.after.classes[n.value.key], interceptor.value)
      && s.after.classes[n.value.key] in s.after.constructors
  {
    match Normalise(loader, interfaces, interceptor)
    case Err(f) => Step(Err(f), e)
    case Ok(Normal(key, pkg)) =>
      var n := e.counter;
      var e1 := e.(counter := n + 1);
      if key in e.classes then Instantiate(e1, e.classes[key], interceptor.value)
      else
        var cf := NewProxyClass(key.interfaces, ProxyInternalName(pkg, n));
        match DefineClass(e.loaded, key.loader, ProxyClassName(pkg, n), cf)
        case Err(f) => Step(Err(f), e1)
        case Ok(d) => Instantiate(e1.(classes := e.classes[key := d.cls], loaded := d.loaded), d.cls, interceptor.value)
  }

  // ---------------------------------------------------------------------------
  // Queries and the registry invariant

  /** What the registry keeps true between calls: the constructor cache
      holds exactly the cached classes; each cached class was defined by its
      key's loader and carries a serial number below the counter; and
      different keys never share a class. */
  predicate Inv(e: Engine)
  {
    && e.constructors == e.classes.Values
    && DefinedByKeyLoader(e.classes, e.loaded)
    && SerialsBelow(e.classes, e.counter)
    && Injective(e.classes)
  }

  /** Each cached class was defined by the loader of its key. */
  predicate DefinedByKeyLoader(classes: map<Key, ClassRef>, loaded: map<LoaderId, set<string>>)
  {
    forall k :: k in classes ==> classes[k].loader == k.loader && classes[k].name in Loaded(loaded, k.loader)
  }

  /** Each cached class carries a serial number below n. */
  predicate SerialsBelow(classes: map<Key, ClassRef>, n: nat)
  {
    forall k :: k in classes ==> SerialOf(classes[k].name).Some? && SerialOf(classes[k].name).value < n
  }

  /** Different keys have different classes. */
  predicate Injective(classes: map<Key, ClassRef>)
  {
    forall k1, k2 :: k1 in classes && k2 in classes && k1 != k2 ==> classes[k1] != classes[k2]
  }

  lemma InitInv(loaded: map<LoaderId, set<string>>)
    ensures Inv(Init(loaded))
  {
  }

  /** `isProxyClass`: true exactly for the classes the engine generated and
      cached under some key; null is a NullPointerException. */
  function IsProxyClass(e: Engine, c: Option<ClassRef>): (r: Result<bool, Failure>)
    ensures c.None? <==> r == Err(NullPointer)
    ensures c.Some? && Inv(e) ==> (r == Ok(true) <==> exists k :: k in e.classes && e.classes[k] == c.value)
    ensures c.Some? ==> r.Ok?
  {
    if c.None? then Err(NullPointer) else Ok(c.value in e.constructors)
  }

  /** `isProxyInstance`: whether the object's class is a proxy class. */
  function IsProxyInstance(e: Engine, o: Option<Obj>): (r: Result<bool, Failure>)
    ensures o.None? <==> r == Err(NullPointer)
    ensures o.Some? ==> r == IsProxyClass(e, Some(o.value.cls))
  {
    if o.None? then Err(NullPointer) else Ok(o.value.cls in e.constructors)
  }

  /** Caching a class under a new key adds exactly that class to the
      values of the cache. */
  lemma InsertValues(m: map<Key, ClassRef>, key: Key, cls: ClassRef)
    requires key !in m
    ensures m[key := cls].Values == m.Values + {cls}
  {
    var m' := m[key := cls];
    forall c | c in m'.Values
      ensures c in m.Values + {cls}
    {
      var k :| k in m' && m'[k] == c;
    }
    forall c | c in m.Values
      ensures c in m'.Values
    {
      var k :| k in m && m[k] == c;
      assert m'[k] == c;
    }
    assert m'[key] == cls;
  }

  lemma InsertInjective(m: map<Key, ClassRef>, key: Key, cls: ClassRef)
    requires Injective(m) && key !in m
    requires forall k :: k in m ==> m[k] != cls
    ensures Injective(m[key := cls])
  {
  }

  /** Caching a freshly numbered class under a new key keeps the invariant:
      its serial number is the counter, which no cached class reaches. */
  lemma CacheNewClassKeepsInv(e: Engine, key: Key, cls: ClassRef, loaded: map<LoaderId, set<string>>)
    requires Inv(e)
    requires key !in e.classes && cls.loader == key.loader
    requires SerialOf(cls.name) == Some(e.counter)
    requires cls.name in Loaded(loaded, key.loader)
    requires forall l :: Loaded(e.loaded, l) <= Loaded(loaded, l)
    ensures Inv(Engine(e.counter + 1, e.classes[key := cls], e.constructors + {cls}, loaded))
  {
    var m := e.classes[key := cls];
    FreshSerialNotCached(e.classes, e.counter, cls);
    InsertValues(e.classes, key, cls);
    InsertInjective(e.classes, key, cls);
    assert DefinedByKeyLoader(m, loaded);
    assert SerialsBelow(m, e.counter + 1);
  }

  /** A class numbered n is none of the cached classes numbered below n. */
  lemma FreshSerialNotCached(classes: map<Key, ClassRef>, n: nat, cls: ClassRef)
    requires SerialsBelow(classes, n) && SerialOf(cls.name) == Some(n)
    ensures forall k :: k in classes ==> classes[k] != cls
  {
  }

  /** Every call preserves the registry invariant; in particular a newly
      defined class is new to the cache, so different keys keep different
      classes. */
  lemma NewProxyInstancePreservesInv(e: Engine, loader: Option<LoaderId>, interfaces: Option<seq<Option<Iface>>>,
                                     interceptor: Option<Interceptor>)
    requires Inv(e)
    ensures Inv(NewProxyInstance(e, loader, interfaces, interceptor).after)
  {
    var s := NewProxyInstance(e, loader, interfaces, interceptor);
    var n := Normalise(loader, interfaces, interceptor);
    if n.Ok? && n.value.key !in e.classes && s.result.Ok? {
      var name := ProxyClassName(n.value.pkg, e.counter);
      var cls := ClassRef(loader.value, name);
      SerialOfProxyClassName(n.value.pkg, e.counter);
      CacheNewClassKeepsInv(e, n.value.key, cls, s.after.loaded);
      assert s.after == Engine(e.counter + 1, e.classes[n.value.key := cls], e.constructors + {cls}, s.after.loaded);
    }
  }

  /** Whatever `newProxyInstance` returns is afterwards a proxy instance,
      and its class a proxy class. */
  lemma ReturnedInstanceIsProxy(e: Engine, loader: Option<LoaderId>, interfaces: Option<seq<Option<Iface>>>,
                                interceptor: Option<Interceptor>)
    requires NewProxyInstance(e, loader, interfaces, interceptor).result.Ok?
    ensures var s := NewProxyInstance(e, loader, interfaces, interceptor);
      IsProxyInstance(s.after, Some(s.result.value)) == Ok(true)
      && IsProxyClass(s.after, Some(s.result.value.cls)) == Ok(true)
  {
  }

  /** Asking again for the same interfaces, in any order, returns an
      instance of the same class and defines nothing new. */
  lemma RepeatedRequestReusesClass(e: Engine, loader: Option<LoaderId>, p: seq<Option<Iface>>, q: seq<Option<Iface>>,
                                   i1: Option<Interceptor>, i2: Option<Interceptor>)
    requires NewProxyInstance(e, loader, Some(p), i1).result.Ok?
    requires i2.Some? && !HasNull(q)
    requires multiset(Present(p)) == multiset(Present(q))
    requires KeyInjective(Present(p))
    ensures var s1 := NewProxyInstance(e, loader, Some(p), i1);
      var s2 := NewProxyInstance(s1.after, loader, Some(q), i2);
      && s2.result == Ok(ProxyObj(s1.result.value.cls, i2.value))
      && s2.after.classes == s1.after.classes
      && s2.after.loaded == s1.after.loaded
      && s2.after.constructors == s1.after.constructors
  {
    var n := Normalise(loader, Some(p), i1);
    var s1 := NewProxyInstance(e, loader, Some(p), i1);
    NormaliseOrderInsensitive(loader, p, q, i2);
    assert Normalise(loader, Some(p), i2) == n;
    assert n.value.key in s1.after.classes;
  }

  /** Requesting interfaces that declare the same method, when no class
      for them is cached, fails with ClassFormatError on the chosen name and
      changes nothing but the counter. */
  lemma SharedSignatureFailsRequest(e: Engine, loader: Option<LoaderId>, interfaces: Option<seq<Option<Iface>>>,
                                    interceptor: Option<Interceptor>, i: nat, j: nat)
    requires Normalise(loader, interfaces, interceptor).Ok?
    requires var key := Normalise(loader, interfaces, interceptor).value.key;
      key !in e.classes
      && i < j < |Proxied(key.interfaces)|
      && Proxied(key.interfaces)[i].1.name == Proxied(key.interfaces)[j].1.name
      && Proxied(key.interfaces)[i].1.params == Proxied(key.interfaces)[j].1.params
      && Proxied(key.interfaces)[i].1.ret == Proxied(key.interfaces)[j].1.ret
    requires var n := Normalise(loader, interfaces, interceptor).value;
      ProxyClassName(n.pkg, e.counter) !in Loaded(e.loaded, n.key.loader)
    ensures var n := Normalise(loader, interfaces, interceptor).value;
      NewProxyInstance(e, loader, interfaces, interceptor)
        == Step(Err(ClassFormat(ProxyClassName(n.pkg, e.counter))), e.(counter := e.counter + 1))
  {
    var n := Normalise(loader, interfaces, interceptor).value;
    SharedSignatureRejected(n.key.interfaces, ProxyInternalName(n.pkg, e.counter), i, j);
  }

  // ---------------------------------------------------------------------------
  // Sequences of calls

  /** One call to `newProxyInstance`, with its possibly-null arguments. */
  datatype Request = Request(loader: Option<LoaderId>, interfaces: Option<seq<Option<Iface>>>,
                             interceptor: Option<Interceptor>)

  function Serve(e: Engine, q: Request): Step<Obj>
  {
    NewProxyInstance(e, q.loader, q.interfaces, q.interceptor)
  }

  /** The class name a validated call settles on: `$Proxy` numbered by the
      counter as it was before the call, whether or not the class is then
      found in the cache or defined. */
  function ChosenName(e: Engine, q: Request): Option<string>
  {
    match Normalise(q.loader, q.interfaces, q.interceptor)
    case Err(_) => None
    case Ok(n) => Some(ProxyClassName(n.pkg, e.counter))
  }

  /** The state after a sequence of calls and the names they chose. */
  datatype Trace = Trace(final: Engine, names: seq<Option<string>>)

  function Run(e: Engine, qs: seq<Request>): Trace
    decreases |qs|
  {
    if |qs| == 0 then Trace(e, [])
    else
      var t := Run(Serve(e, qs[0]).after, qs[1..]);
      Trace(t.final, [ChosenName(e, qs[0])] + t.names)
  }

  /** The serial number inside a chosen name, or -1 for none. */
  function SerialIn(name: Option<string>): int
  {
    if name.Some? && SerialOf(name.value).Some? then SerialOf(name.value).value else -1
  }

  /** One call: a chosen name carries the counter as it was, and the counter
      advances exactly when a name was chosen. */
  lemma ServeAdvances(e: Engine, q: Request)
    ensures ChosenName(e, q).Some? ==> SerialIn(ChosenName(e, q)) == e.counter
    ensures Serve(e, q).after.counter == if ChosenName(e, q).Some? then e.counter + 1 else e.counter
  {
    var n := Normalise(q.loader, q.interfaces, q.interceptor);
    if n.Ok? {
      SerialOfProxyClassName(n.value.pkg, e.counter);
    }
  }

  /** Every present name carries a serial number in `[lo, hi)`, and the
      serial numbers strictly increase along the sequence. */
  predicate Ascending(names: seq<Option<string>>, lo: int, hi: int)
  {
    && (forall i :: 0 <= i < |names| && names[i].Some? ==> lo <= SerialIn(names[i]) < hi)
    && (forall i, j :: 0 <= i < j < |names| && names[i].Some? && names[j].Some? ==>
          SerialIn(names[i]) < SerialIn(names[j]))
  }

  lemma AscendingCons(x: Option<string>, rest: seq<Option<string>>, lo: int, mid: int, hi: int)
    requires x.Some? ==> lo <= SerialIn(x) < mid
    requires lo <= mid <= hi
    requires Ascending(rest, mid, hi)
    ensures Ascending([x] + rest, lo, hi)
  {
    var names := [x] + rest;
    assert forall i :: 1 <= i < |names| ==> names[i] == rest[i - 1];
  }

  /** Along a run, every chosen name carries a serial number between the
      starting and the final counter, and the serial numbers strictly
      increase. */
  lemma {:induction false} RunSerials(e: Engine, qs: seq<Request>)
    ensures |Run(e, qs).names| == |qs|
    ensures e.counter <= Run(e, qs).final.counter
    ensures Ascending(Run(e, qs).names, e.counter, Run(e, qs).final.counter)
    decreases |qs|
  {
    if |qs| > 0 {
      var e' := Serve(e, qs[0]).after;
      var t := Run(e', qs[1..]);
      RunSerials(e', qs[1..]);
      ServeAdvances(e, qs[0]);
      assert e'.counter <= t.final.counter;
      AscendingCons(ChosenName(e, qs[0]), t.names, e.counter, e'.counter, t.final.counter);
    }
  }

  /** The names chosen along any run are pairwise distinct, so no call ever
      picks a name an earlier call picked. */
  lemma ChosenNamesDistinct(e: Engine, qs: seq<Request>)
    ensures |Run(e, qs).names| == |qs|
    ensures forall i, j :: 0 <= i < j < |qs| && Run(e, qs).names[i].Some? && Run(e, qs).names[j].Some? ==>
      Run(e, qs).names[i] != Run(e, qs).names[j]
  {
    RunSerials(e, qs);
  }
}
