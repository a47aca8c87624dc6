/** A function as the JIT's escape analysis sees it: for every position the registers it reads and writes that matter, and where control can go next. */
module Shapes {
  // `InstrShapes` says which shape each instruction has.

  type Reg = nat

  datatype Option<+T> = None | Some(value: T)

  datatype Shape =
    | Move(dst: Reg, src: Reg)
    /** Loads `nil` or a bool. */
    | LoadPlain(dst: Reg)
    | GetGlobal(dst: Reg, name: string)
    | Call(dst: Reg, func: Reg, numArgs: nat)
    /** `captures` are the registers of this frame the new closure captures. */
    | Closure(dst: Reg, captures: set<Reg>)
    | CloseUpvalues(from: Reg)
    | GetField(dst: Reg, obj: Reg, name: string)
    /** `==` and `!=` between two registers. */
    | Equality(dst: Reg, a: Reg, b: Reg)
    | Return(src: Reg)
    /** Anything else: the register it writes, and the registers whose value it may hand to
        other code or store away. */
    | Other(out: Option<Reg>, escaping: set<Reg>)

  /** The register an instruction writes, if it writes one. */
  function Dst(i: Shape): Option<Reg> {
    match i
    case Other(out, _) => out
    case Return(_) => None
    case CloseUpvalues(_) => None
    case _ => Some(i.dst)
  }

  /** Where an error goes on, and the register it is put in. */
  datatype Landing = Landing(resume: nat, variable: Option<Reg>)

  /** A function prototype: `flow[ip]` is where control may go right after `ip`, `catches[ip]`
      what an error raised there is caught by. */
  datatype Proto = Proto(
    name: string,
    code: seq<Shape>,
    flow: seq<set<nat>>,
    numRegs: nat,
    arity: nat,
    variadic: bool,
    isMethod: bool,
    hasOwningClass: bool,
    catches: seq<Option<Landing>>)

  function CaughtAt(p: Proto, ip: nat): Option<Landing> {
    if ip < |p.catches| then p.catches[ip] else None
  }

  /** Every position inside the function that control may reach right after `ip`. */
  function Successors(p: Proto, ip: nat): (s: set<nat>)
    ensures forall t :: t in s ==> t < |p.code| && ip < |p.code|
  {
    if ip < |p.code| && ip < |p.flow| then set t | t in p.flow[ip] && t < |p.code| else {}
  }

  /** The exact inverse of `Successors`. */
  function Preds(p: Proto, ip: nat): set<nat> {
    set q | 0 <= q < |p.code| && ip in Successors(p, q)
  }
}
