/** The structural records the bytecode decoder hands to the metrics engine:
    type descriptors, instructions, exception handlers, fields, methods and classes.
    Only what the metrics engine reads is kept. */
module Bytecode {

  datatype Option<+T> = None | Some(value: T)

  /** The primitive kinds of the JVM type system. */
  datatype BasicKind = Boolean | Char | Float | Double | Byte | Short | Int | Long

  /** A type descriptor. `Array` nests, so its innermost element is never an array. */
  datatype Type =
    | Primitive(kind: BasicKind)
    | Void
    | Array(element: Type)
    | Reference(className: string)

  // The decoder's type tags: T_BOOLEAN = 4 through T_LONG = 11, then these three.
  const T_VOID: int := 12
  const T_ARRAY: int := 13
  const T_OBJECT: int := 14

  /** The decoder's type tag of a primitive kind. */
  function KindTag(k: BasicKind): int {
    match k
    case Boolean => 4
    case Char => 5
    case Float => 6
    case Double => 7
    case Byte => 8
    case Short => 9
    case Int => 10
    case Long => 11
  }

  /** The decoder's type tag of a descriptor (`Type.getType()`). */
  function Tag(t: Type): int {
    match t
    case Primitive(k) => KindTag(k)
    case Void => T_VOID
    case Array(_) => T_ARRAY
    case Reference(_) => T_OBJECT
  }

  function KindName(k: BasicKind): string {
    match k
    case Boolean => "boolean"
    case Char => "char"
    case Float => "float"
    case Double => "double"
    case Byte => "byte"
    case Short => "short"
    case Int => "int"
    case Long => "long"
  }

  /** The decoder's rendering of a type (`Type.toString()`): Java source syntax. */
  function TypeString(t: Type): string {
    match t
    case Primitive(k) => KindName(k)
    case Void => "void"
    case Array(e) => TypeString(e) + "[]"
    case Reference(n) => n
  }

  /** Opcode of the increment-local-variable-in-place instruction. */
  const IINC: int := 132

  /** One instruction, by the kind the metrics engine distinguishes. Each kind carries the
      operand information the decoder resolves through the constant pool. */
  datatype Instruction =
    | LocalVariable(opcode: int, localType: Type)
    | ArrayElement(opcode: int, elementType: Type)
    | FieldAccess(opcode: int, owner: string, fieldName: string, fieldType: Type)
    | Invoke(opcode: int, owner: string, methodName: string, argumentTypes: seq<Type>, returnType: Type)
    | InstanceOf(opcode: int, testedType: Type)
    | CheckCast(opcode: int, castType: Type)
    | Return(opcode: int, returnType: Type)
    | ConstantPush(opcode: int)
    | Other(opcode: int)

  /** An exception-handler region; a catch-all (finally) handler has no catch type. */
  datatype CodeException = CodeException(catchType: Option<Type>)

  datatype Field = Field(name: string, fieldType: Type)

  datatype Method = Method(
    name: string,
    isPublic: bool,
    isAbstract: bool,
    isNative: bool,
    argumentTypes: seq<Type>,
    returnType: Type,
    exceptions: seq<string>,
    code: seq<Instruction>,
    handlers: seq<CodeException>)

  /** A decoded class. `superclassCount` is the length of the full ancestor chain when the
      decoder can resolve it, and None when an ancestor cannot be found. */
  datatype JavaClass = JavaClass(
    name: string,
    isPublic: bool,
    superclassName: string,
    superclassCount: Option<nat>,
    interfaceNames: seq<string>,
    fields: seq<Field>,
    methods: seq<Method>)
}
