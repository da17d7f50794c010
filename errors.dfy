/** The errors the assembler throws, with their exact messages. */
module Errors {
  import opened Numerals

  datatype ErrorKind =
    | InvalidInt(token: string)
    | ReservedValue(token: string)
    | ArgCount(cmd: string)
    | AlreadyDefined(name: string)
    | TooManyArgs(cmd: string)
    | LabelIsOpcode(value: Number, labelName: string)
    | UnknownCommand(cmd: string)
  {
    function Text(): string {
      match this
      case InvalidInt(token) => "Invalid int value: " + token
      case ReservedValue(token) => "PUSH reserved value: " + token
      case ArgCount(cmd) => "Invalid number of arguments to " + cmd
      case AlreadyDefined(name) => "Constant " + name + " already defined"
      case TooManyArgs(cmd) => "Too many arguments to " + cmd
      case LabelIsOpcode(value, labelName) =>
        "Label value " + NumberText(value) + " translates to an opcode: " + labelName
      case UnknownCommand(cmd) => "Unknown command: " + cmd
    }
  }

  /** An error thrown while assembling, tagged with the 1-based number of the offending line. */
  datatype AsmError = AsmError(line: nat, kind: ErrorKind) {
    function Message(): string {
      "Line " + NatToString(line) + ": " + kind.Text()
    }
  }
}
