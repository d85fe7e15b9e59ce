/**
 FlatCode instructions (montyc_flatcode/src/raw_inst.rs).

 An instruction is identified by its index in its sequence, and that index is
 also the slot that receives its result.  `INVALID_VALUE` is the placeholder
 that the builder writes before a jump is patched; it is `usize::MAX` in the
 program and -1 here, a number that is no index in either setting.
 */
module RawInst {

  datatype Option<+T> = None | Some(value: T)

  /** The group of an interned name. */
  type Name = nat

  const INVALID_VALUE: int := -1

  datatype Constant =
    | NoneConst
    | EllipsisConst
    | IntConst(n: int)
    | StrConst(s: Name)
    | BoolConst(b: bool)
    | FloatConst(f: real)

  datatype UnaryOp = Invert | Not | Pos | Neg

  datatype InfixOp =
    | Add | Sub | Power | InvertInfix | FloorDiv | MatMult | Mod | Div | Mult
    | LeftShift | RightShift | NotEq | Eq | And | Or | Xor

  datatype Dunder =
    | UnaryDunder(unary: UnaryOp)
    | InfixDunder(infix: InfixOp)
    | GetItem
    | SetItem
    | DocComment
    | AsBool

  datatype Inst =
    | Defn(name: Name, params: seq<(Name, Option<nat>)>, result: Option<nat>, sequenceId: nat)
    | RefAsStr(r: Name)
    | Call(callable: nat, arguments: seq<nat>)
    | SetVar(variable: Name, value: nat)
    | UseVar(variable: Name)
    | GetAttribute(object_: nat, attr: nat)
    | GetDunder(object_: nat, dunder: Dunder)
    | SetAttribute(object_: nat, attr: nat, value: nat)
    | Const(c: Constant)
    | Tuple(elems: seq<nat>)
    | Nop
    | If(test: nat, truthy: Option<int>, falsey: Option<int>)
    | Br(to: int)
    | PhiJump(recv: nat, value: nat)
    | JumpTarget
    | PhiRecv
    | Return(value: nat)
    | SetAnnotation(name: Name, annotation: nat)
}
