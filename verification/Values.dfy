/** The values programs compute with, and the operators on them. */
module Values {
  // Numbers are integers. An error is its type; what else is on the heap is an identity.

  datatype Value =
    | Nil
    | Bool(b: bool)
    | Num(n: int)
    | Str(s: string)
    | Error(kind: string)
    | Span(lower: int, upper: int)
    | Obj(id: nat)

  datatype BinOp =
    | Add | Sub | Mul | Div | Pow | Floor | Mod | Concat
    | BitAnd | BitOr | BitXor | BitShl | BitShr | BitUshr

  datatype CmpOp = Eq | Neq | Lt | Le | Gt | Ge

  datatype UnOp = Neg | Not | BitNot

  function Falsey(v: Value): bool {
    match v
    case Nil => true
    case Bool(b) => !b
    case Num(n) => n == 0
    case Str(s) => s == ""
    case _ => false
  }

  const Undefined := Error("UndefinedError")

  /** The value `raise` throws: anything but an error becomes a type error. */
  function Thrown(v: Value): Value {
    if v.Error? then v else Error("TypeError")
  }
}
