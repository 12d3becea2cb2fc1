/** The decisions `newProxyClass` makes while emitting a proxy class: which
    methods it forwards and under which index, the names of the generated
    fields and invoker-thunk methods, the local-variable slots of the
    parameters, the box/unbox code around each argument and return value,
    and the shape of the resulting class file. */
module Synthesizer {
  import opened Wrappers
  import opened Text
  import opened Bytecode
  import opened Normalizer

  // ---------------------------------------------------------------------------
  // Method enumeration

  /** A forwarded method: the interface it was found on, its signature and
      its running index. */
  datatype Entry = Entry(owner: Iface, sig: Sig, index: nat)

  /** The non-static methods among the first k methods of c, in order. */
  function Declared(c: Iface, k: nat): seq<(Iface, Sig)>
    requires k <= |c.methods|
  {
    if k == 0 then []
    else Declared(c, k - 1) + (if c.methods[k - 1].isStatic then [] else [(c, c.methods[k - 1])])
  }

  /** Every non-static method of every interface, interfaces in the given
      order and each interface's methods in `getMethods` order. */
  function Proxied(ifaces: seq<Iface>): seq<(Iface, Sig)>
  {
    if |ifaces| == 0 then []
    else Proxied(ifaces[..|ifaces| - 1]) + Declared(ifaces[|ifaces| - 1], |ifaces[|ifaces| - 1].methods|)
  }

  /** Proxied methods numbered 0, 1, 2, ... */
  function Entries(ifaces: seq<Iface>): seq<Entry>
  {
    var ms := Proxied(ifaces);
    seq(|ms|, i requires 0 <= i < |ms| => Entry(ms[i].0, ms[i].1, i))
  }

  /** The loops of `newProxyClass`: one entry per non-static
      method of each interface, indexed consecutively from 0. */
  method EnumerateMethods(ifaces: seq<Iface>) returns (entries: seq<Entry>)
    ensures |entries| == |Proxied(ifaces)|
    ensures forall i :: 0 <= i < |entries| ==>
      entries[i].index == i && entries[i].owner == Proxied(ifaces)[i].0 && entries[i].sig == Proxied(ifaces)[i].1
  {
    entries := [];
    var index := 0;
    var k := 0;
    while k < |ifaces|
      invariant 0 <= k <= |ifaces|
      invariant index == |entries| == |Proxied(ifaces[..k])|
      invariant forall i :: 0 <= i < |entries| ==>
        entries[i] == Entry(Proxied(ifaces[..k])[i].0, Proxied(ifaces[..k])[i].1, i)
    {
      var c := ifaces[k];
      var before := Proxied(ifaces[..k]);
      var j := 0;
      while j < |c.methods|
        invariant 0 <= j <= |c.methods|
        invariant index == |entries| == |before + Declared(c, j)|
        invariant forall i :: 0 <= i < |entries| ==>
          entries[i] == Entry((before + Declared(c, j))[i].0, (before + Declared(c, j))[i].1, i)
      {
        var m := c.methods[j];
        if !m.isStatic {
          entries := entries + [Entry(c, m, index)];
          index := index + 1;
        }
        j := j + 1;
      }
      assert ifaces[..k + 1][..k] == ifaces[..k];
      assert Proxied(ifaces[..k + 1]) == before + Declared(c, |c.methods|);
      k := k + 1;
    }
    assert ifaces[..k] == ifaces;
  }

  // ---------------------------------------------------------------------------
  // Names of generated members

  /** The static field holding the `Method` of entry i. */
  function FieldName(i: nat): string
  {
    "M_" + Decimal(i)
  }

  /** The synthetic method that the invoker thunk of entry i calls. */
  function LambdaName(name: string, i: nat): string
  {
    "lambda$" + name + "$" + Decimal(i)
  }

  /** Different entries get different fields. */
  lemma FieldNamesDistinct(i: nat, j: nat)
    ensures FieldName(i) == FieldName(j) <==> i == j
  {
    if FieldName(i) == FieldName(j) {
      assert FieldName(i)[2..] == Decimal(i);
      assert FieldName(j)[2..] == Decimal(j);
      DecimalInjective(i, j);
    }
  }

  lemma DecimalHasNoDollar(n: nat)
    ensures forall i :: 0 <= i < |Decimal(n)| ==> Decimal(n)[i] != '$'
  {
  }

  /** The index is the part after the last '$' of a lambda name. */
  lemma LambdaNameIndex(name: string, i: nat)
    ensures var l := LambdaName(name, i);
      l[LastIndexOf(l, '$') + 1..] == Decimal(i)
  {
    var head := "lambda$" + name;
    assert LambdaName(name, i) == head + ['$'] + Decimal(i);
    DecimalHasNoDollar(i);
    LastIndexOfSplit(head, '$', Decimal(i));
  }

  /** Different entries get different thunk methods, even when the method
      names themselves contain '$'. */
  lemma LambdaNamesDistinct(a: string, i: nat, b: string, j: nat)
    ensures LambdaName(a, i) == LambdaName(b, j) ==> i == j
  {
    LambdaNameIndex(a, i);
    LambdaNameIndex(b, j);
    DecimalInjective(i, j);
  }

  // ---------------------------------------------------------------------------
  // Local-variable slots

  /** The slot of parameter i: slot 0 holds `this`, and each earlier
      parameter takes its width (1 + the sum of the earlier widths). */
  function SlotOf(params: seq<ValueType>, i: nat): nat
    requires i <= |params|
  {
    if i == 0 then 1 else SlotOf(params, i - 1) + Width(params[i - 1])
  }

  /** Parameters occupy disjoint, increasing slot ranges after `this`,
      within one or two slots per parameter. */
  lemma {:induction false} SlotsDisjoint(params: seq<ValueType>, i: nat, j: nat)
    requires i < j <= |params|
    ensures SlotOf(params, i) + Width(params[i]) <= SlotOf(params, j)
    ensures 1 + j <= SlotOf(params, j) <= 1 + 2 * j
    decreases j
  {
    if j > i + 1 {
      SlotsDisjoint(params, i, j - 1);
    } else {
      SlotBounds(params, i);
    }
  }

  lemma {:induction false} SlotBounds(params: seq<ValueType>, i: nat)
    requires i <= |params|
    ensures 1 + i <= SlotOf(params, i) <= 1 + 2 * i
  {
    if i > 0 {
      SlotBounds(params, i - 1);
    }
  }

  /** The block pushing argument i into the `Object[]` of the forwarding
      method: duplicate the array, push i, load the parameter, box it, store. */
  function ForwardArg(t: ValueType, i: nat, slot: nat): seq<Insn>
  {
    [Simple(DUP), IntConstant(i), Var(LoadOpcode(t), slot)] + BoxCode(t) + [Simple(AASTORE)]
  }

  /** The argument loop of `visitOverrideMethod`: parameter i
      is loaded from slot 1 + the widths of the parameters before it. */
  method EmitForwardArgs(params: seq<ValueType>) returns (blocks: seq<seq<Insn>>)
    ensures |blocks| == |params|
    ensures forall i {:trigger blocks[i]} :: 0 <= i < |params| ==> blocks[i] == ForwardArg(params[i], i, SlotOf(params, i))
  {
    blocks := [];
    var offset := 1;
    var i := 0;
    while i < |params|
      invariant 0 <= i <= |params|
      invariant |blocks| == i
      invariant offset == SlotOf(params, i)
      invariant forall k {:trigger blocks[k]} :: 0 <= k < i ==> blocks[k] == ForwardArg(params[k], k, SlotOf(params, k))
    {
      var t := params[i];
      var block := ForwardArg(t, i, offset);
      assert SlotOf(params, i + 1) == offset + Width(t);
      var blocks' := blocks + [block];
      assert forall k :: 0 <= k < i ==> blocks'[k] == blocks[k];
      blocks := blocks';
      offset := offset + 1;
      if t == Prim(Double) || t == Prim(Long) {
        offset := offset + 1;
      }
      i := i + 1;
    }
  }

  /** The local-variable table loop of `visitOverrideMethod`:
      it records each parameter at the same slot the argument loop loads it
      from. */
  method LocalVariableSlots(params: seq<ValueType>) returns (slots: seq<nat>)
    ensures |slots| == |params|
    ensures forall i {:trigger slots[i]} :: 0 <= i < |params| ==> slots[i] == SlotOf(params, i)
  {
    slots := [];
    var offset := 1;
    for i := 0 to |params|
      invariant |slots| == i
      invariant offset == SlotOf(params, i)
      invariant forall k {:trigger slots[k]} :: 0 <= k < i ==> slots[k] == SlotOf(params, k)
    {
      var t := params[i];
      assert SlotOf(params, i + 1) == offset + Width(t);
      var slots' := slots + [offset];
      assert forall k :: 0 <= k < i ==> slots'[k] == slots[k];
      slots := slots';
      offset := offset + 1;
      if t == Prim(Double) || t == Prim(Long) {
        offset := offset + 1;
      }
    }
  }

  /** The tail of the forwarding method: `return` for void, otherwise the
      handler's `Object` result unboxed or cast to the declared type and
      returned with the matching return instruction. */
  function ForwardingReturn(ret: ReturnType): (code: seq<Insn>)
    ensures |code| >= 1
    ensures ret.Void? ==> code == [Simple(RETURN)]
    ensures ret.Value? ==> RunType(code[..|code| - 1], Ref(OBJECT)) == Some(ret.t)
    ensures ret.Value? ==> code[|code| - 1].Simple? && ReturnedType(code[|code| - 1].opcode) == Some(CompTypeOf(ret.t))
  {
    if ret.Void? then [Simple(RETURN)]
    else
      var code := UnboxCode(ret.t) + [Simple(ReturnOpcode(ret.t))];
      assert code[..|code| - 1] == UnboxCode(ret.t);
      UnboxFromObject(ret.t);
      code
  }

  /** The block of the invoker thunk that passes argument i to the real
      method: load `args[i]` and unbox or cast it to the parameter type. */
  function ThunkArg(t: ValueType, i: nat): seq<Insn>
  {
    [Var(ALOAD, 1), IntConstant(i), Simple(AALOAD)] + UnboxCode(t)
  }

  /** The tail of the invoker thunk: `null` for a void method, otherwise the
      result boxed to a reference; then `areturn`. */
  function ThunkReturn(ret: ReturnType): (code: seq<Insn>)
    ensures |code| >= 1 && code[|code| - 1] == Simple(ARETURN)
    ensures ret.Void? ==> code == [Simple(ACONST_NULL), Simple(ARETURN)]
    ensures ret.Value? ==> RunType(code[..|code| - 1], ret.t).Some? && RunType(code[..|code| - 1], ret.t).value.Ref?
  {
    if ret.Void? then [Simple(ACONST_NULL), Simple(ARETURN)]
    else
      var code := BoxCode(ret.t) + [Simple(ARETURN)];
      assert code[..|code| - 1] == BoxCode(ret.t);
      BoxYieldsReference(ret.t);
      code
  }

  /** Argument i makes the round trip from the forwarding method through the
      `Object[]` into the thunk intact: both sides use index i, the
      forwarding side reads the parameter's slot with a load of its
      computational type and boxes it, and the thunk's unboxing gives back
      exactly the parameter type. */
  lemma {:induction false} ArgumentRoundTrip(params: seq<ValueType>, i: nat)
    requires i < |params| && i <= 32767
    ensures var f := ForwardArg(params[i], i, SlotOf(params, i));
      Pushed(f[1]) == Some(i) && f[2] == Var(LoadOpcode(params[i]), SlotOf(params, i))
      && LoadedType(f[2].opcode) == Some(CompTypeOf(params[i]))
    ensures Pushed(ThunkArg(params[i], i)[1]) == Some(i)
    ensures RunType(BoxCode(params[i]) + UnboxCode(params[i]), params[i]) == Some(params[i])
    ensures RunType(UnboxCode(params[i]), Ref(OBJECT)) == Some(params[i])
  {
    var t := params[i];
    var slot := SlotOf(params, i);
    var f := ForwardArg(t, i, slot);
    assert f == [Simple(DUP), IntConstant(i), Var(LoadOpcode(t), slot)] + (BoxCode(t) + [Simple(AASTORE)]);
    assert f[1] == IntConstant(i) && f[2] == Var(LoadOpcode(t), slot);
    assert ThunkArg(t, i)[1] == IntConstant(i);
    BoxUnboxRoundTrip(t);
    UnboxFromObject(t);
  }

  // ---------------------------------------------------------------------------
  // Class file shape

  /** A method as declared in the class file: name and descriptor. */
  datatype MethodDecl = MethodDecl(name: string, params: seq<ValueType>, ret: ReturnType)

  /** What the generated class file declares. */
  datatype ClassFile = ClassFile(name: string, interfaces: seq<string>, fields: seq<string>, methods: seq<MethodDecl>)

  const INTERCEPTOR := "com/alphalxy/MethodInterceptor"

  /** The descriptor `(Object, Object[]) -> Object` of every thunk method. */
  function ThunkDecl(e: Entry): MethodDecl
  {
    MethodDecl(LambdaName(e.sig.name, e.index), [Ref(OBJECT), Ref("[Ljava/lang/Object;")], Value(Ref(OBJECT)))
  }

  function OverrideDecl(e: Entry): MethodDecl
  {
    MethodDecl(e.sig.name, e.sig.params, e.sig.ret)
  }

  /** The methods of the proxy class: the constructor, the static
      initializer, then for each entry its forwarding method and its thunk. */
  function ProxyMethods(es: seq<Entry>): (ms: seq<MethodDecl>)
    ensures |ms| == 2 + 2 * |es|
    ensures ms[0] == MethodDecl("<init>", [Ref(INTERCEPTOR)], Void) && ms[1] == MethodDecl("<clinit>", [], Void)
    ensures forall k :: 0 <= k < |es| ==> ms[2 + 2 * k] == OverrideDecl(es[k]) && ms[3 + 2 * k] == ThunkDecl(es[k])
  {
    if |es| == 0 then [MethodDecl("<init>", [Ref(INTERCEPTOR)], Void), MethodDecl("<clinit>", [], Void)]
    else
      var ms := ProxyMethods(es[..|es| - 1]);
      assert forall k :: 0 <= k < |es| - 1 ==> es[..|es| - 1][k] == es[k];
      ms + [OverrideDecl(es[|es| - 1]), ThunkDecl(es[|es| - 1])]
  }

  /** The `interceptor` field followed by one `M_<i>` field per entry. */
  function ProxyFields(n: nat): (fs: seq<string>)
    ensures |fs| == 1 + n && fs[0] == "interceptor"
    ensures forall k :: 0 <= k < n ==> fs[1 + k] == FieldName(k)
  {
    ["interceptor"] + seq(n, i requires 0 <= i < n => FieldName(i))
  }

  /** `newProxyClass`: a public final class implementing the sorted
      interfaces, with the `interceptor` field, one `M_<i>` field per entry,
      and the methods above. */
  function NewProxyClass(ifaces: seq<Iface>, proxyName: string): (cf: ClassFile)
    ensures |cf.fields| == 1 + |Proxied(ifaces)|
    ensures |cf.methods| == 2 + 2 * |Proxied(ifaces)|
    ensures cf.name == proxyName && cf.fields[0] == "interceptor"
    ensures |cf.interfaces| == |ifaces|
    ensures forall i :: 0 <= i < |ifaces| ==> cf.interfaces[i] == Replace(ifaces[i].name, '.', '/')
    ensures forall k {:trigger FieldName(k)} :: 0 <= k < |Proxied(ifaces)| ==> cf.fields[1 + k] == FieldName(k)
    ensures forall k {:trigger Entries(ifaces)[k]} :: 0 <= k < |Proxied(ifaces)| ==>
      cf.methods[2 + 2 * k] == OverrideDecl(Entries(ifaces)[k]) && cf.methods[3 + 2 * k] == ThunkDecl(Entries(ifaces)[k])
  {
    var es := Entries(ifaces);
    ClassFile(proxyName,
              seq(|ifaces|, i requires 0 <= i < |ifaces| => Replace(ifaces[i].name, '.', '/')),
              ProxyFields(|es|),
              ProxyMethods(es))
  }

  /** Two methods with one name and one descriptor: the virtual machine
      refuses such a class with ClassFormatError (JVMS section 4.6). */
  predicate HasDuplicateMethod(cf: ClassFile)
  {
    exists i, j :: 0 <= i < j < |cf.methods| && cf.methods[i] == cf.methods[j]
  }

  /** Two proxied methods with the same name, parameters and return type
      (the same method reached through two interfaces) make the class
      invalid: the generator does not merge them. */
  lemma SharedSignatureRejected(ifaces: seq<Iface>, proxyName: string, i: nat, j: nat)
    requires i < j < |Proxied(ifaces)|
    requires Proxied(ifaces)[i].1.name == Proxied(ifaces)[j].1.name
    requires Proxied(ifaces)[i].1.params == Proxied(ifaces)[j].1.params
    requires Proxied(ifaces)[i].1.ret == Proxied(ifaces)[j].1.ret
    ensures HasDuplicateMethod(NewProxyClass(ifaces, proxyName))
  {
    var es := Entries(ifaces);
    var cf := NewProxyClass(ifaces, proxyName);
    assert es[i].sig == Proxied(ifaces)[i].1 && es[j].sig == Proxied(ifaces)[j].1;
    var a, b := 2 + 2 * i, 2 + 2 * j;
    assert cf.methods[a] == OverrideDecl(es[i]) && cf.methods[b] == OverrideDecl(es[j]);
    assert cf.methods[a] == cf.methods[b];
  }

  /** The `interceptor` field and the `M_<i>` fields are pairwise different. */
  lemma ProxyFieldsDistinct(n: nat)
    ensures var fs := ProxyFields(n);
      forall a, b :: 0 <= a < b < |fs| ==> fs[a] != fs[b]
  {
    var fs := ProxyFields(n);
    forall a, b | 0 <= a < b < |fs|
      ensures fs[a] != fs[b]
    {
      assert fs[b] == FieldName(b - 1);
      if a == 0 {
        assert fs[b][0] == 'M';
      } else {
        assert fs[a] == FieldName(a - 1);
        FieldNamesDistinct(a - 1, b - 1);
      }
    }
  }

  /** Field names never clash: `interceptor` and the `M_<i>` fields are
      pairwise different. */
  lemma FieldsDistinct(ifaces: seq<Iface>, proxyName: string)
    ensures var fs := NewProxyClass(ifaces, proxyName).fields;
      forall a, b :: 0 <= a < b < |fs| ==> fs[a] != fs[b]
  {
    ProxyFieldsDistinct(|Entries(ifaces)|);
  }

  /** Thunk methods never clash with each other. */
  lemma ThunksDistinct(ifaces: seq<Iface>, proxyName: string, a: nat, b: nat)
    requires a < b < |Proxied(ifaces)|
    ensures var ms := NewProxyClass(ifaces, proxyName).methods;
      ms[3 + 2 * a] != ms[3 + 2 * b]
  {
    var es := Entries(ifaces);
    LambdaNamesDistinct(es[a].sig.name, a, es[b].sig.name, b);
  }
}
