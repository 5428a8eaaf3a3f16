/** The parts of the decompiled syntax tree that the three emitters read. Nodes are
    immutable values: the emitters never change or re-parent them. */
module Ast {

  datatype Option<+T> = None | Some(value: T)

  /** The expected type handed to a child renderer (a TypeSignature). */
  datatype TypeSig =
    | NoType                      // a null expected type
    | IntType                     // ClassTypeSignature.INT
    | OfDescriptor(desc: string)  // ClassTypeSignature.of(desc)

  /** Expression nodes. Only the kinds the call emitter inspects are told apart;
      every other kind is rendered through the context and is opaque here. */
  datatype Instruction =
    | LocalAccess(index: nat)                                // a read of local slot `index`
    | NewArray(elemType: TypeSig, initializer: seq<Instruction>)
    | OtherInstruction(id: string)

  /** An instance method call: `owner` is the owner's descriptor (`Ljava/util/Map;`),
      `ownerName` its internal name (`java/util/Map`). */
  datatype Invoke = Invoke(
    owner: string,
    ownerName: string,
    methodName: string,
    methodDesc: string,
    callee: Instruction,
    params: seq<Instruction>)

  /** `new T[a][b]...`: the array type's descriptor and one size per allocated dimension. */
  datatype MultiNewArray = MultiNewArray(descriptor: string, sizes: seq<Instruction>)

  /** Statements and conditions are rendered through the context and are opaque here. */
  datatype Statement = Statement(id: string)
  datatype Condition = Condition(id: string)

  /** A `for` loop; a missing init or increment is None. */
  datatype For = For(init: Option<Statement>, condition: Condition, incr: Option<Statement>, body: seq<Statement>)

  /** The unchecked exceptions an emitter can end with. */
  datatype Failure = IllegalState | IndexOutOfBounds

  /** How an emitter call ends: normally, or by throwing. */
  datatype Outcome = Done | Thrown(failure: Failure)
}
