/** The interface-set normaliser of `newProxyInstance` and `getProxyType`:
    sorting the requested interfaces into the cache key's order, rejecting
    invalid sets, and choosing the proxy class name. */
module Normalizer {
  import opened Wrappers
  import opened Text
  import opened Bytecode

  /** A method as `Class.getMethods` reports it on an interface. */
  datatype Sig = Sig(name: string, params: seq<ValueType>, ret: ReturnType, isStatic: bool)

  /** A class passed to `newProxyInstance`: its binary name (`a.b.C`), its
      `hashCode` (`id`), whether it is an interface and public, and its
      methods. Two values are the same class exactly when they are equal. */
  datatype Iface = Iface(name: string, id: int, isInterface: bool, isPublic: bool, methods: seq<Sig>)

  // ---------------------------------------------------------------------------
  // Sorting by (name, hashCode)

  /** The comparator of `newProxyInstance`: by name, then by hashCode. */
  predicate KeyLeq(a: Iface, b: Iface)
  {
    Less(a.name, b.name) || (a.name == b.name && a.id <= b.id)
  }

  lemma KeyLeqTotal(a: Iface, b: Iface)
    ensures KeyLeq(a, b) || KeyLeq(b, a)
  {
    LessTotal(a.name, b.name);
  }

  lemma KeyLeqTransitive(a: Iface, b: Iface, c: Iface)
    ensures KeyLeq(a, b) && KeyLeq(b, c) ==> KeyLeq(a, c)
  {
    LessTransitive(a.name, b.name, c.name);
  }

  /** Two classes each ordered before the other share name and hashCode. */
  lemma KeyLeqAntisymmetric(a: Iface, b: Iface)
    ensures KeyLeq(a, b) && KeyLeq(b, a) ==> a.name == b.name && a.id == b.id
  {
    LessAsymmetric(a.name, b.name);
    LessIrreflexive(a.name);
  }

  predicate Sorted(s: seq<Iface>)
  {
    forall i, j :: 0 <= i < j < |s| ==> KeyLeq(s[i], s[j])
  }

  lemma LeqAllOfSorted(x: Iface, s: seq<Iface>)
    requires Sorted(s) && |s| > 0 && KeyLeq(x, s[0])
    ensures forall j :: 0 <= j < |s| ==> KeyLeq(x, s[j])
  {
    forall j | 0 <= j < |s|
      ensures KeyLeq(x, s[j])
    {
      KeyLeqTransitive(x, s[0], s[j]);
    }
  }

  lemma LeqAllOfPermutation(x: Iface, y: Iface, rest: seq<Iface>, r: seq<Iface>)
    requires forall j :: 0 <= j < |rest| ==> KeyLeq(x, rest[j])
    requires KeyLeq(x, y)
    requires multiset(r) == multiset(rest) + multiset{y}
    ensures forall j :: 0 <= j < |r| ==> KeyLeq(x, r[j])
  {
    forall j | 0 <= j < |r|
      ensures KeyLeq(x, r[j])
    {
      assert r[j] in multiset(r);
      if r[j] != y {
        assert r[j] in multiset(rest);
        var k :| 0 <= k < |rest| && rest[k] == r[j];
      }
    }
  }

  /** One step of insertion: x goes before the first element it is not
      ordered after, so the result stays sorted and holds one more x. */
  function Insert(x: Iface, s: seq<Iface>): (r: seq<Iface>)
    requires Sorted(s)
    ensures Sorted(r)
    ensures multiset(r) == multiset(s) + multiset{x}
  {
    if |s| == 0 then [x]
    else if KeyLeq(x, s[0]) then
      LeqAllOfSorted(x, s);
      [x] + s
    else
      var r' := Insert(x, s[1..]);
      KeyLeqTotal(x, s[0]);
      assert s == [s[0]] + s[1..];
      LeqAllOfPermutation(s[0], x, s[1..], r');
      [s[0]] + r'
  }

  /** `Arrays.sort` of a copy of the interfaces with the (name, hashCode)
      comparator: the result is ordered and a permutation of the input. */
  function Sort(s: seq<Iface>): (r: seq<Iface>)
    ensures Sorted(r)
    ensures multiset(r) == multiset(s)
  {
    if |s| == 0 then []
    else
      assert s == [s[0]] + s[1..];
      Insert(s[0], Sort(s[1..]))
  }

  /** No two different classes share both name and hashCode. */
  predicate KeyInjective(s: seq<Iface>)
  {
    forall i, j :: 0 <= i < |s| && 0 <= j < |s| && s[i].name == s[j].name && s[i].id == s[j].id ==> s[i] == s[j]
  }

  lemma KeyInjectivePermutation(a: seq<Iface>, b: seq<Iface>)
    requires multiset(a) == multiset(b) && KeyInjective(a)
    ensures KeyInjective(b)
  {
    forall i, j | 0 <= i < |b| && 0 <= j < |b| && b[i].name == b[j].name && b[i].id == b[j].id
      ensures b[i] == b[j]
    {
      assert b[i] in multiset(a) && b[j] in multiset(a);
      var i' :| 0 <= i' < |a| && a[i'] == b[i];
      var j' :| 0 <= j' < |a| && a[j'] == b[j];
    }
  }

  /** Two sorted arrangements of the same key-injective classes start with
      the same class. */
  lemma SortedSameHead(a: seq<Iface>, b: seq<Iface>)
    requires Sorted(a) && Sorted(b) && |a| > 0 && |b| > 0
    requires multiset(a) == multiset(b)
    requires KeyInjective(a)
    ensures a[0] == b[0]
  {
    assert a[0] in multiset(b);
    var j :| 0 <= j < |b| && b[j] == a[0];
    assert b[0] in multiset(a);
    var i :| 0 <= i < |a| && a[i] == b[0];
    assert KeyLeq(a[0], a[i]);
    assert KeyLeq(b[0], b[j]);
    KeyLeqAntisymmetric(a[0], b[0]);
    assert a[0] == a[i];
  }

  lemma SortedTail(a: seq<Iface>)
    requires |a| > 0 && Sorted(a) && KeyInjective(a)
    ensures Sorted(a[1..]) && KeyInjective(a[1..])
    ensures multiset(a[1..]) == multiset(a) - multiset{a[0]}
  {
    assert a == [a[0]] + a[1..];
  }

  /** Two sorted arrangements of the same classes are equal when no two
      classes share name and hashCode. */
  lemma {:induction false} SortedUnique(a: seq<Iface>, b: seq<Iface>)
    requires Sorted(a) && Sorted(b)
    requires multiset(a) == multiset(b)
    requires KeyInjective(a)
    ensures a == b
  {
    assert |a| == |multiset(a)| == |multiset(b)| == |b|;
    if |a| > 0 {
      SortedSameHead(a, b);
      KeyInjectivePermutation(a, b);
      SortedTail(a);
      SortedTail(b);
      SortedUnique(a[1..], b[1..]);
      assert a == [a[0]] + a[1..] && b == [b[0]] + b[1..];
    }
  }

  /** Order-insensitivity of the cache key: any permutation of the same
      classes sorts to the same sequence, when (name, hashCode) tells
      different classes apart. */
  lemma SortPermutationInvariant(p: seq<Iface>, q: seq<Iface>)
    requires multiset(p) == multiset(q)
    requires KeyInjective(p)
    ensures Sort(p) == Sort(q)
  {
    KeyInjectivePermutation(p, Sort(p));
    SortedUnique(Sort(p), Sort(q));
  }

  // ---------------------------------------------------------------------------
  // Validation (`getProxyType`)

  /** The package prefix of a binary class name: everything up to and
      including the last '.', or "" in the unnamed package. */
  function PackageOf(name: string): (p: string)
    ensures |p| <= |name| && p == name[..|p|]
    ensures p == [] || p[|p| - 1] == '.'
    ensures forall i :: |p| <= i < |name| ==> name[i] != '.'
  {
    var n := LastIndexOf(name, '.');
    if n == -1 then "" else name[..n + 1]
  }

  /** The three properties of PackageOf determine it. */
  lemma PackageOfUnique(name: string, p: string)
    requires |p| <= |name| && p == name[..|p|]
    requires p == [] || p[|p| - 1] == '.'
    requires forall i :: |p| <= i < |name| ==> name[i] != '.'
    ensures p == PackageOf(name)
  {
  }

  /** Why `getProxyType` rejects an interface set. */
  datatype Violation = NotAnInterface(name: string) | MixedPackages | Repeated(name: string)

  predicate AllInterfaces(s: seq<Iface>)
  {
    forall i :: 0 <= i < |s| ==> s[i].isInterface
  }

  predicate Distinct(s: seq<Iface>)
  {
    forall i, j :: 0 <= i < j < |s| ==> s[i] != s[j]
  }

  predicate OnePackage(s: seq<Iface>)
  {
    forall i, j :: 0 <= i < |s| && 0 <= j < |s| && !s[i].isPublic && !s[j].isPublic ==>
      PackageOf(s[i].name) == PackageOf(s[j].name)
  }

  /** An interface set `getProxyType` accepts: interfaces only, none
      repeated, and all non-public ones in one package. */
  predicate Acceptable(s: seq<Iface>)
  {
    AllInterfaces(s) && Distinct(s) && OnePackage(s)
  }

  /** The package of the first non-public class in s, if there is one. */
  function ProxyPackage(s: seq<Iface>): Option<string>
  {
    if |s| == 0 then None
    else
      var p := ProxyPackage(s[..|s| - 1]);
      if p.None? && !s[|s| - 1].isPublic then Some(PackageOf(s[|s| - 1].name)) else p
  }

  lemma {:induction false} ProxyPackageSpec(s: seq<Iface>)
    ensures ProxyPackage(s).None? <==> forall i :: 0 <= i < |s| ==> s[i].isPublic
    ensures ProxyPackage(s).Some? ==>
      exists i :: 0 <= i < |s| && !s[i].isPublic && PackageOf(s[i].name) == ProxyPackage(s).value
  {
    if |s| > 0 {
      var s' := s[..|s| - 1];
      ProxyPackageSpec(s');
      assert forall i :: 0 <= i < |s'| ==> s'[i] == s[i];
    }
  }

  /** With all non-public classes in one package, that package is the
      proxy package. */
  lemma {:induction false} ProxyPackageOfOnePackage(s: seq<Iface>, i: int)
    requires OnePackage(s) && 0 <= i < |s| && !s[i].isPublic
    ensures ProxyPackage(s) == Some(PackageOf(s[i].name))
  {
    ProxyPackageSpec(s);
  }

  /** The checks one loop iteration of `getProxyType` applies to the next
      class c after the classes s: interface, package, not repeated. */
  predicate Admits(s: seq<Iface>, c: Iface)
  {
    && c.isInterface
    && (c.isPublic || ProxyPackage(s).None? || PackageOf(c.name) == ProxyPackage(s).value)
    && c !in s
  }

  /** The violation that iteration reports for c, checks taken in order. */
  predicate Offends(s: seq<Iface>, c: Iface, v: Violation)
  {
    match v
    case NotAnInterface(n) => !c.isInterface && n == c.name
    case MixedPackages =>
      c.isInterface && !c.isPublic && ProxyPackage(s).Some? && PackageOf(c.name) != ProxyPackage(s).value
    case Repeated(n) =>
      && c.isInterface
      && (c.isPublic || ProxyPackage(s).None? || PackageOf(c.name) == ProxyPackage(s).value)
      && c in s && n == c.name
  }

  /** Position k holds the first class of s that fails a check, and v is
      the violation it fails with. */
  predicate FirstOffence(s: seq<Iface>, k: int, v: Violation)
  {
    0 <= k < |s| && Acceptable(s[..k]) && Offends(s[..k], s[k], v)
  }

  lemma AllInterfacesSnoc(s: seq<Iface>, c: Iface)
    requires AllInterfaces(s)
    ensures AllInterfaces(s + [c]) <==> c.isInterface
  {
    var t := s + [c];
    assert t[|s|] == c;
    assert forall i :: 0 <= i < |s| ==> t[i] == s[i];
  }

  lemma DistinctSnoc(s: seq<Iface>, c: Iface)
    requires Distinct(s)
    ensures Distinct(s + [c]) <==> c !in s
  {
    var t := s + [c];
    assert t[|s|] == c;
    assert forall i :: 0 <= i < |s| ==> t[i] == s[i];
    if c in s {
      var w :| 0 <= w < |s| && s[w] == c;
      assert t[w] == t[|s|];
    }
  }

  lemma {:induction false} OnePackageSnoc(s: seq<Iface>, c: Iface)
    requires OnePackage(s)
    ensures OnePackage(s + [c]) <==>
      c.isPublic || ProxyPackage(s).None? || PackageOf(c.name) == ProxyPackage(s).value
  {
    var t := s + [c];
    assert t[|s|] == c;
    assert forall i :: 0 <= i < |s| ==> t[i] == s[i];
    ProxyPackageSpec(s);
    if !c.isPublic && ProxyPackage(s).Some? {
      var w :| 0 <= w < |s| && !s[w].isPublic && PackageOf(s[w].name) == ProxyPackage(s).value;
      assert !t[w].isPublic && PackageOf(t[w].name) == ProxyPackage(s).value;
    }
  }

  /** Extending an accepted prefix by c keeps it acceptable exactly when the
      loop's checks admit c. */
  lemma AcceptableSnoc(s: seq<Iface>, c: Iface)
    requires Acceptable(s)
    ensures Acceptable(s + [c]) <==> Admits(s, c)
  {
    AllInterfacesSnoc(s, c);
    DistinctSnoc(s, c);
    OnePackageSnoc(s, c);
  }

  lemma AdmitsOrOffends(s: seq<Iface>, c: Iface)
    ensures !Admits(s, c) ==>
      Offends(s, c, NotAnInterface(c.name)) || Offends(s, c, MixedPackages) || Offends(s, c, Repeated(c.name))
  {
  }

  /** The loop of `getProxyType` from position i on: `pkg` is the package
      recorded so far, `seen` the interface set built so far. */
  function ValidateFrom(s: seq<Iface>, i: nat, pkg: Option<string>, seen: set<Iface>): Result<Option<string>, Violation>
    requires i <= |s|
    decreases |s| - i
  {
    if i == |s| then Ok(pkg)
    else
      var c := s[i];
      if !c.isInterface then Err(NotAnInterface(c.name))
      else if !c.isPublic && pkg.Some? && PackageOf(c.name) != pkg.value then Err(MixedPackages)
      else if c in seen then Err(Repeated(c.name))
      else ValidateFrom(s, i + 1, if c.isPublic || pkg.Some? then pkg else Some(PackageOf(c.name)), seen + {c})
  }

  lemma {:induction false} ValidateFromSpec(s: seq<Iface>, i: nat, pkg: Option<string>, seen: set<Iface>)
    requires i <= |s|
    requires Acceptable(s[..i])
    requires seen == set k | 0 <= k < i :: s[k]
    requires pkg == ProxyPackage(s[..i])
    ensures ValidateFrom(s, i, pkg, seen).Ok? ==>
      Acceptable(s) && ValidateFrom(s, i, pkg, seen).value == ProxyPackage(s)
    ensures ValidateFrom(s, i, pkg, seen).Err? ==>
      exists k :: i <= k && FirstOffence(s, k, ValidateFrom(s, i, pkg, seen).error)
    ensures Acceptable(s) ==> ValidateFrom(s, i, pkg, seen).Ok?
    decreases |s| - i
  {
    if i == |s| {
      assert s[..i] == s;
    } else {
      var c := s[i];
      var p := s[..i];
      assert s[..i + 1] == p + [c];
      assert s[..i + 1][..i] == p;
      assert c in seen <==> c in p;
      AcceptableSnoc(p, c);
      if Admits(p, c) {
        var pkg' := if c.isPublic || pkg.Some? then pkg else Some(PackageOf(c.name));
        assert pkg' == ProxyPackage(s[..i + 1]);
        assert seen + {c} == set k | 0 <= k < i + 1 :: s[k];
        ValidateFromSpec(s, i + 1, pkg', seen + {c});
      } else {
        AdmitsOrOffends(p, c);
        assert FirstOffence(s, i, ValidateFrom(s, i, pkg, seen).error);
        if Acceptable(s) {
          AcceptablePrefix(s, i + 1);
        }
      }
    }
  }

  lemma AcceptablePrefix(s: seq<Iface>, n: nat)
    requires n <= |s| && Acceptable(s)
    ensures Acceptable(s[..n])
  {
    var p := s[..n];
    assert forall i :: 0 <= i < n ==> p[i] == s[i];
  }

  /** `getProxyType`'s validation loop over the sorted interfaces. It
      accepts exactly the acceptable sets and then reports the package of
      the non-public interfaces (None when all are public); otherwise it
      reports the violation of the first class, in sorted order, that fails
      a check. */
  function CheckInterfaces(s: seq<Iface>): (r: Result<Option<string>, Violation>)
    ensures r.Ok? <==> Acceptable(s)
    ensures r.Ok? ==> r.value == ProxyPackage(s)
    ensures r.Err? ==> exists k :: FirstOffence(s, k, r.error)
  {
    assert s[..0] == [];
    ValidateFromSpec(s, 0, None, {});
    ValidateFrom(s, 0, None, {})
  }

  // ---------------------------------------------------------------------------
  // Naming

  /** `$Proxy` followed by the digits of the counter value. */
  function ProxySuffix(n: nat): string
  {
    "$Proxy" + Decimal(n)
  }

  /** The package part of the internal name. */
  function InternalPrefix(pkg: Option<string>): string
  {
    if pkg.None? then "com/alphalxy/" else Replace(pkg.value, '.', '/')
  }

  /** The internal name `getProxyType` chooses with counter value n: in
      `com/alphalxy/` when every interface is public, otherwise in the
      package of the non-public ones with '.' turned into '/'. */
  function ProxyInternalName(pkg: Option<string>, n: nat): string
  {
    InternalPrefix(pkg) + ProxySuffix(n)
  }

  predicate NoSlash(s: string)
  {
    forall i :: 0 <= i < |s| ==> s[i] != '/'
  }

  lemma ProxySuffixPlain(n: nat)
    ensures forall i :: 0 <= i < |ProxySuffix(n)| ==> ProxySuffix(n)[i] != '/' && ProxySuffix(n)[i] != '.'
    ensures ProxySuffix(n) == ['$'] + ("Proxy" + Decimal(n))
  {
    var d := Decimal(n);
    var t := ProxySuffix(n);
    forall i | 0 <= i < |t|
      ensures t[i] != '/' && t[i] != '.'
    {
      if i >= 6 {
        assert t[i] == d[i - 6];
      }
    }
  }

  lemma DefaultPackageDotted()
    ensures Replace("com/alphalxy/", '/', '.') == "com.alphalxy."
  {
    var r := Replace("com/alphalxy/", '/', '.');
    forall i | 0 <= i < 13
      ensures r[i] == "com.alphalxy."[i]
    {
    }
  }

  /** A package name without '/' survives the round trip to internal form
      and back. */
  lemma DottedRoundTrip(p: string)
    requires NoSlash(p)
    ensures Replace(Replace(p, '.', '/'), '/', '.') == p
  {
  }

  /** The package part of the class name, in dotted form. */
  function DottedPrefix(pkg: Option<string>): string
  {
    if pkg.None? then "com.alphalxy." else Replace(Replace(pkg.value, '.', '/'), '/', '.')
  }

  /** A slash-free package reads the same in dotted form. */
  lemma DottedPrefixOfPlain(pkg: Option<string>)
    ensures pkg.Some? && NoSlash(pkg.value) ==> DottedPrefix(pkg) == pkg.value
  {
    if pkg.Some? && NoSlash(pkg.value) {
      DottedRoundTrip(pkg.value);
    }
  }

  /** The class name is the dotted package followed by `$Proxy<n>`. */
  lemma ProxyClassNameSplit(pkg: Option<string>, n: nat)
    ensures Replace(ProxyInternalName(pkg, n), '/', '.') == DottedPrefix(pkg) + ProxySuffix(n)
  {
    ProxySuffixPlain(n);
    ReplaceAbsent(ProxySuffix(n), '/', '.');
    ReplaceConcat(InternalPrefix(pkg), ProxySuffix(n), '/', '.');
    if pkg.None? {
      DefaultPackageDotted();
    }
  }

  /** The binary name the class is defined under (`Type.getClassName`):
      `com.alphalxy.$Proxy<n>`, or the interfaces' package followed by
      `$Proxy<n>`. */
  function ProxyClassName(pkg: Option<string>, n: nat): (name: string)
    ensures name == DottedPrefix(pkg) + ProxySuffix(n)
    ensures pkg.None? ==> name == "com.alphalxy." + ProxySuffix(n)
    ensures pkg.Some? && NoSlash(pkg.value) ==> name == pkg.value + ProxySuffix(n)
  {
    ProxyClassNameSplit(pkg, n);
    DottedPrefixOfPlain(pkg);
    Replace(ProxyInternalName(pkg, n), '/', '.')
  }

  /** The serial number encoded in a class name: the digits after the last
      `$Proxy`, if the name ends that way. */
  function SerialOf(name: string): Option<nat>
  {
    var k := LastIndexOf(name, '$');
    var tail := name[k + 1..];
    if k >= 0 && |tail| > 5 && tail[..5] == "Proxy" && AllDigits(tail[5..])
    then Some(ParseDecimal(tail[5..]))
    else None
  }

  lemma ProxyDigitsNoDollar(n: nat)
    ensures forall i :: 0 <= i < |"Proxy" + Decimal(n)| ==> ("Proxy" + Decimal(n))[i] != '$'
  {
    var rest := "Proxy" + Decimal(n);
    forall i | 0 <= i < |rest|
      ensures rest[i] != '$'
    {
      if i >= 5 {
        assert rest[i] == Decimal(n)[i - 5];
      }
    }
  }

  /** Whatever precedes the last '$', the digits after `$Proxy` are read
      back. */
  lemma {:induction false} SerialOfSplit(head: string, n: nat)
    ensures SerialOf(head + ['$'] + ("Proxy" + Decimal(n))) == Some(n)
  {
    var rest := "Proxy" + Decimal(n);
    var name := head + ['$'] + rest;
    ProxyDigitsNoDollar(n);
    LastIndexOfSplit(head, '$', rest);
    assert name[|head| + 1..] == rest;
    assert rest[..5] == "Proxy";
    assert rest[5..] == Decimal(n);
    ParseDecimalOfDecimal(n);
  }

  /** A chosen class name gives back the counter value it was built from. */
  lemma SerialOfProxyClassName(pkg: Option<string>, n: nat)
    ensures SerialOf(ProxyClassName(pkg, n)) == Some(n)
  {
    var head := DottedPrefix(pkg);
    ProxySuffixPlain(n);
    assert ProxyClassName(pkg, n) == head + ['$'] + ("Proxy" + Decimal(n));
    SerialOfSplit(head, n);
  }

  /** Names chosen with different counter values differ, whatever their
      packages. */
  lemma ProxyClassNamesDistinct(p: Option<string>, m: nat, q: Option<string>, n: nat)
    requires m != n
    ensures ProxyClassName(p, m) != ProxyClassName(q, n)
  {
    SerialOfProxyClassName(p, m);
    SerialOfProxyClassName(q, n);
  }

  /** A package prefix followed by a dot-free simple name has that prefix
      as its package. */
  lemma PackageOfAppend(head: string, tail: string)
    requires head == [] || head[|head| - 1] == '.'
    requires forall i :: 0 <= i < |tail| ==> tail[i] != '.'
    ensures PackageOf(head + tail) == head
  {
    var name := head + tail;
    assert name[..|head|] == head;
    assert forall i :: |head| <= i < |name| ==> name[i] == tail[i - |head|];
    PackageOfUnique(name, head);
  }

  /** The proxy package is the package prefix of one of the classes, so
      it is "" or ends with '.', and holds no '/' when no name does. */
  lemma ProxyPackageShape(s: seq<Iface>)
    requires forall i :: 0 <= i < |s| ==> NoSlash(s[i].name)
    ensures ProxyPackage(s).Some? ==> NoSlash(ProxyPackage(s).value)
    ensures ProxyPackage(s).Some? ==> ProxyPackage(s).value == [] || ProxyPackage(s).value[|ProxyPackage(s).value| - 1] == '.'
  {
    ProxyPackageSpec(s);
    if ProxyPackage(s).Some? {
      var w :| 0 <= w < |s| && !s[w].isPublic && PackageOf(s[w].name) == ProxyPackage(s).value;
      var head := PackageOf(s[w].name);
      assert head == s[w].name[..|head|];
      assert NoSlash(s[w].name);
    }
  }

  /** The proxy class lands in the package of the non-public interfaces, or
      in `com.alphalxy` when all are public. */
  lemma ProxyClassPackage(s: seq<Iface>, n: nat)
    requires forall i :: 0 <= i < |s| ==> NoSlash(s[i].name)
    ensures ProxyPackage(s).None? ==> PackageOf(ProxyClassName(ProxyPackage(s), n)) == "com.alphalxy."
    ensures ProxyPackage(s).Some? ==> PackageOf(ProxyClassName(ProxyPackage(s), n)) == ProxyPackage(s).value
  {
    var pkg := ProxyPackage(s);
    ProxySuffixPlain(n);
    ProxyPackageShape(s);
    var head := if pkg.Some? then pkg.value else "com.alphalxy.";
    assert head == [] || head[|head| - 1] == '.';
    assert ProxyClassName(pkg, n) == head + ProxySuffix(n);
    PackageOfAppend(head, ProxySuffix(n));
  }
}
