/** The code-shape tables of the proxy generator: how it pushes small int
    constants, which load and return instruction it picks per type, and how it
    boxes and unboxes primitives. Opcode values and instruction meanings follow
    chapter 6 of the Java Virtual Machine Specification (Java SE 8). */
module Bytecode {
  import opened Wrappers

  /** The eight primitive types (JVMS section 2.3). */
  datatype PrimKind = Boolean | Byte | Char | Short | Int | Long | Float | Double

  /** A non-void Java type: a primitive, or a class, interface or array type
      named by its internal name (`java/lang/String`, `[I`). */
  datatype ValueType = Prim(kind: PrimKind) | Ref(internalName: string)

  /** The declared return type of a method. */
  datatype ReturnType = Void | Value(t: ValueType)

  const OBJECT := "java/lang/Object"

  const ACONST_NULL := 1
  const ICONST_M1 := 2
  const ICONST_0 := 3
  const ICONST_5 := 8
  const BIPUSH := 16
  const SIPUSH := 17
  const ILOAD := 21
  const LLOAD := 22
  const FLOAD := 23
  const DLOAD := 24
  const ALOAD := 25
  const AALOAD := 50
  const AASTORE := 83
  const DUP := 89
  const IRETURN := 172
  const LRETURN := 173
  const FRETURN := 174
  const DRETURN := 175
  const ARETURN := 176
  const RETURN := 177
  const INVOKEVIRTUAL := 182
  const INVOKESTATIC := 184
  const INVOKEINTERFACE := 185
  const CHECKCAST := 192

  /** One emitted instruction, at the level of detail the generator decides:
      the opcode and its operands. A method operand is given by owner, name and
      its parameter and return types (which determine its descriptor). */
  datatype Insn =
    | Simple(opcode: int)
    | Push(opcode: int, operand: int)
    | Var(opcode: int, slot: int)
    | TypeInsn(opcode: int, internalName: string)
    | Invoke(opcode: int, owner: string, name: string, params: seq<ValueType>, ret: ReturnType)

  /** A 16-bit two's-complement reading of the low 16 bits of v. */
  function Signed16(v: int): (r: int)
    ensures -32768 <= r < 32768
    ensures 0 <= v < 32768 ==> r == v
  {
    var u := v % 65536;
    if u < 32768 then u else u - 65536
  }

  /** An 8-bit two's-complement reading of the low 8 bits of v. */
  function Signed8(v: int): (r: int)
    ensures -128 <= r < 128
    ensures 0 <= v < 128 ==> r == v
  {
    var u := v % 256;
    if u < 128 then u else u - 256
  }

  /** The int an instruction pushes, when it is one of `iconst_<i>`, `bipush`
      or `sipush` (JVMS section 6.5). The class writer stores an opcode in one
      byte, a `bipush` operand in one byte and a `sipush` operand in two, and
      the machine sign-extends the operands. */
  function Pushed(insn: Insn): Option<int>
  {
    match insn
    case Simple(op) =>
      var b := op % 256;
      if ICONST_M1 <= b <= ICONST_5 then Some(b - ICONST_0) else None
    case Push(op, v) =>
      if op == BIPUSH then Some(Signed8(v))
      else if op == SIPUSH then Some(Signed16(v))
      else None
    case _ => None
  }

  /** `visitIntConstant`: the instruction chosen to push the int i. It pushes
      exactly i precisely for -1 <= i <= 32767, which covers every index and
      parameter count the generator asks for. */
  function IntConstant(i: int): (insn: Insn)
    ensures Pushed(insn) == Some(i) <==> -1 <= i <= 32767
    ensures 0 <= i < 6 ==> insn.Simple?
    ensures 6 <= i < 128 ==> insn.Push? && insn.opcode == BIPUSH
  {
    if i < 6 then Simple(i + 3)
    else if i < 128 then Push(BIPUSH, i)
    else Push(SIPUSH, i)
  }

  /** Computational types (JVMS section 2.11.1, Table 2.11.1-B). */
  datatype CompType = IntCT | LongCT | FloatCT | DoubleCT | RefCT

  function CompTypeOf(t: ValueType): CompType
  {
    match t
    case Ref(_) => RefCT
    case Prim(k) =>
      match k
      case Long => LongCT
      case Float => FloatCT
      case Double => DoubleCT
      case _ => IntCT
  }

  /** The computational type a local-variable load instruction reads
      (`iload`, `lload`, `fload`, `dload`, `aload`). */
  function LoadedType(op: int): Option<CompType>
  {
    if op == ILOAD then Some(IntCT)
    else if op == LLOAD then Some(LongCT)
    else if op == FLOAD then Some(FloatCT)
    else if op == DLOAD then Some(DoubleCT)
    else if op == ALOAD then Some(RefCT)
    else None
  }

  /** The computational type a return instruction returns (`ireturn` ..
      `areturn`); `return` itself returns nothing. */
  function ReturnedType(op: int): Option<CompType>
  {
    if op == IRETURN then Some(IntCT)
    else if op == LRETURN then Some(LongCT)
    else if op == FRETURN then Some(FloatCT)
    else if op == DRETURN then Some(DoubleCT)
    else if op == ARETURN then Some(RefCT)
    else None
  }

  /** `getLoadOpcode`: the load instruction for a parameter of type t reads a
      value of t's computational type. */
  function LoadOpcode(t: ValueType): (op: int)
    ensures LoadedType(op) == Some(CompTypeOf(t))
  {
    match t
    case Prim(Int) => ILOAD
    case Prim(Boolean) => ILOAD
    case Prim(Byte) => ILOAD
    case Prim(Char) => ILOAD
    case Prim(Short) => ILOAD
    case Prim(Double) => DLOAD
    case Prim(Float) => FLOAD
    case Prim(Long) => LLOAD
    case Ref(_) => ALOAD
  }

  /** `getReturnOpcode`: the return instruction for a method returning t
      returns a value of t's computational type. */
  function ReturnOpcode(t: ValueType): (op: int)
    ensures ReturnedType(op) == Some(CompTypeOf(t))
  {
    match t
    case Prim(Int) => IRETURN
    case Prim(Boolean) => IRETURN
    case Prim(Byte) => IRETURN
    case Prim(Char) => IRETURN
    case Prim(Short) => IRETURN
    case Prim(Double) => DRETURN
    case Prim(Float) => FRETURN
    case Prim(Long) => LRETURN
    case Ref(_) => ARETURN
  }

  /** Number of local-variable slots a parameter occupies: long and double
      take two (JVMS section 2.6.1), every other type one. */
  function Width(t: ValueType): (w: nat)
    ensures w == 2 <==> CompTypeOf(t) == LongCT || CompTypeOf(t) == DoubleCT
    ensures w == 1 || w == 2
  {
    if t == Prim(Double) || t == Prim(Long) then 2 else 1
  }

  /** The wrapper class of each primitive type (boxing conversion, section
      5.1.7 of the Java Language Specification). */
  function WrapperOf(k: PrimKind): string
  {
    match k
    case Boolean => "java/lang/Boolean"
    case Byte => "java/lang/Byte"
    case Char => "java/lang/Character"
    case Short => "java/lang/Short"
    case Int => "java/lang/Integer"
    case Long => "java/lang/Long"
    case Float => "java/lang/Float"
    case Double => "java/lang/Double"
  }

  /** The wrapper method that unboxes each primitive type. */
  function UnboxMethodOf(k: PrimKind): string
  {
    match k
    case Boolean => "booleanValue"
    case Byte => "byteValue"
    case Char => "charValue"
    case Short => "shortValue"
    case Int => "intValue"
    case Long => "longValue"
    case Float => "floatValue"
    case Double => "doubleValue"
  }

  /** `visitBox`: a primitive is boxed by its wrapper's static `valueOf`;
      a reference needs no instruction. */
  function BoxCode(t: ValueType): (code: seq<Insn>)
    ensures t.Ref? ==> code == []
    ensures t.Prim? ==> code == [Invoke(INVOKESTATIC, WrapperOf(t.kind), "valueOf", [t], Value(Ref(WrapperOf(t.kind))))]
  {
    match t
    case Prim(Int) => [Invoke(INVOKESTATIC, "java/lang/Integer", "valueOf", [Prim(Int)], Value(Ref("java/lang/Integer")))]
    case Prim(Boolean) => [Invoke(INVOKESTATIC, "java/lang/Boolean", "valueOf", [Prim(Boolean)], Value(Ref("java/lang/Boolean")))]
    case Prim(Byte) => [Invoke(INVOKESTATIC, "java/lang/Byte", "valueOf", [Prim(Byte)], Value(Ref("java/lang/Byte")))]
    case Prim(Char) => [Invoke(INVOKESTATIC, "java/lang/Character", "valueOf", [Prim(Char)], Value(Ref("java/lang/Character")))]
    case Prim(Short) => [Invoke(INVOKESTATIC, "java/lang/Short", "valueOf", [Prim(Short)], Value(Ref("java/lang/Short")))]
    case Prim(Double) => [Invoke(INVOKESTATIC, "java/lang/Double", "valueOf", [Prim(Double)], Value(Ref("java/lang/Double")))]
    case Prim(Float) => [Invoke(INVOKESTATIC, "java/lang/Float", "valueOf", [Prim(Float)], Value(Ref("java/lang/Float")))]
    case Prim(Long) => [Invoke(INVOKESTATIC, "java/lang/Long", "valueOf", [Prim(Long)], Value(Ref("java/lang/Long")))]
    case Ref(_) => []
  }

  /** `visitUnboxOrCheckCast`: a primitive is cast to its wrapper and
      unboxed; a reference type other than Object is cast; Object needs
      nothing. */
  function UnboxCode(t: ValueType): (code: seq<Insn>)
    ensures t.Prim? ==> code == [TypeInsn(CHECKCAST, WrapperOf(t.kind)),
                                 Invoke(INVOKEVIRTUAL, WrapperOf(t.kind), UnboxMethodOf(t.kind), [], Value(t))]
    ensures t.Ref? ==> code == (if t.internalName == OBJECT then [] else [TypeInsn(CHECKCAST, t.internalName)])
  {
    match t
    case Prim(Int) =>
      [TypeInsn(CHECKCAST, "java/lang/Integer"), Invoke(INVOKEVIRTUAL, "java/lang/Integer", "intValue", [], Value(Prim(Int)))]
    case Prim(Boolean) =>
      [TypeInsn(CHECKCAST, "java/lang/Boolean"), Invoke(INVOKEVIRTUAL, "java/lang/Boolean", "booleanValue", [], Value(Prim(Boolean)))]
    case Prim(Byte) =>
      [TypeInsn(CHECKCAST, "java/lang/Byte"), Invoke(INVOKEVIRTUAL, "java/lang/Byte", "byteValue", [], Value(Prim(Byte)))]
    case Prim(Char) =>
      [TypeInsn(CHECKCAST, "java/lang/Character"), Invoke(INVOKEVIRTUAL, "java/lang/Character", "charValue", [], Value(Prim(Char)))]
    case Prim(Short) =>
      [TypeInsn(CHECKCAST, "java/lang/Short"), Invoke(INVOKEVIRTUAL, "java/lang/Short", "shortValue", [], Value(Prim(Short)))]
    case Prim(Double) =>
      [TypeInsn(CHECKCAST, "java/lang/Double"), Invoke(INVOKEVIRTUAL, "java/lang/Double", "doubleValue", [], Value(Prim(Double)))]
    case Prim(Float) =>
      [TypeInsn(CHECKCAST, "java/lang/Float"), Invoke(INVOKEVIRTUAL, "java/lang/Float", "floatValue", [], Value(Prim(Float)))]
    case Prim(Long) =>
      [TypeInsn(CHECKCAST, "java/lang/Long"), Invoke(INVOKEVIRTUAL, "java/lang/Long", "longValue", [], Value(Prim(Long)))]
    case Ref(name) =>
      if name != OBJECT then [TypeInsn(CHECKCAST, name)] else []
  }

  /** The type of the value on top of the operand stack after one instruction
      consumes `top`, for the instructions box and unbox code uses
      (JVMS section 6.5: `checkcast`, `invokestatic`, `invokevirtual`);
      None when the instruction does not accept `top`. */
  function StepType(insn: Insn, top: ValueType): Option<ValueType>
  {
    match insn
    case TypeInsn(op, c) =>
      if op == CHECKCAST && top.Ref? then Some(Ref(c)) else None
    case Invoke(op, owner, _, params, ret) =>
      if ret.Void? then None
      else if op == INVOKESTATIC && params == [top] then Some(ret.t)
      else if op == INVOKEVIRTUAL && params == [] && top == Ref(owner) then Some(ret.t)
      else None
    case _ => None
  }

  /** StepType over a sequence of instructions. */
  function RunType(code: seq<Insn>, top: ValueType): Option<ValueType>
  {
    if |code| == 0 then Some(top)
    else match StepType(code[0], top)
      case None => None
      case Some(t) => RunType(code[1..], t)
  }

  /** Boxing turns any value into a reference, so it can be stored in an
      `Object[]` or returned by `areturn`. */
  lemma BoxYieldsReference(t: ValueType)
    ensures RunType(BoxCode(t), t).Some?
    ensures RunType(BoxCode(t), t).value.Ref?
  {
  }

  /** Unboxing an `Object` yields exactly the declared type: the wrapper the
      cast checks for is the one whose accessor returns that primitive. */
  lemma UnboxFromObject(t: ValueType)
    ensures RunType(UnboxCode(t), Ref(OBJECT)) == Some(t)
  {
    var u := UnboxCode(t);
    if t.Prim? {
      var w := WrapperOf(t.kind);
      assert StepType(u[0], Ref(OBJECT)) == Some(Ref(w));
      assert StepType(u[1], Ref(w)) == Some(t);
      assert RunType(u[1..][1..], t) == Some(t);
    } else if t.internalName != OBJECT {
      assert RunType(u[1..], t) == Some(t);
    }
  }

  /** A reference value of any type passes the cast to itself. */
  lemma UnboxFromRef(t: ValueType)
    requires t.Ref?
    ensures RunType(UnboxCode(t), t) == Some(t)
  {
    var u := UnboxCode(t);
    if t.internalName != OBJECT {
      assert RunType(u[1..], t) == Some(t);
    }
  }

  /** Boxing then unboxing gives back the original type: for each primitive
      the wrapper `visitBox` produces is the one `visitUnboxOrCheckCast`
      casts to and unboxes. */
  lemma BoxUnboxRoundTrip(t: ValueType)
    ensures RunType(BoxCode(t) + UnboxCode(t), t) == Some(t)
  {
    var b := BoxCode(t);
    var u := UnboxCode(t);
    if t.Prim? {
      var w := WrapperOf(t.kind);
      assert StepType(b[0], t) == Some(Ref(w));
      assert (b + u)[1..] == u;
      assert StepType(u[0], Ref(w)) == Some(Ref(w));
      assert StepType(u[1], Ref(w)) == Some(t);
      assert RunType(u[1..][1..], t) == Some(t);
      assert RunType(u[1..], Ref(w)) == Some(t);
      assert RunType(u, Ref(w)) == Some(t);
      assert (b + u)[0] == b[0];
    } else {
      assert b + u == u;
      UnboxFromRef(t);
    }
  }
}
