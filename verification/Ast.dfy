/** The syntax tree of a script. */
module Ast {
  import opened Common

  /** An IEEE double, by its bit pattern; the model never looks inside. */
  type F64 = nat

  datatype Arg =
    | Const(text: string)
    | Var(name: string)
    | Dynamic(name: string, args: seq<Arg>)

  datatype Instruction =
    | Task(name: Arg, args: seq<Arg>)
    | Open(path: Arg)
    | Debug(text: Arg)
    | Ping(server: Arg)

  datatype MachineInstruction =
    | Server(port: nat)
    | Profile(target: string)
    | Path(value: string)

  datatype Dist =
    | Exp(rate: F64)
    | Zipf(frequency: F64, exponent: F64)
    | Uniform(upper: F64, lower: F64)

  datatype Node =
    | Machine(mInstructions: seq<MachineInstruction>)
    | Work(name: string, args: map<string, string>, instructions: seq<Instruction>, dist: Option<Dist>)
}
