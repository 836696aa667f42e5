/** External processes as the build tool sees them: a program and its argument list.
    Spawning and waiting are not modelled; a run is recorded as the invocation it makes. */
module Process {

  /** One external-process invocation: the program path and its arguments, in order. */
  datatype Invocation = Invocation(program: string, args: seq<string>)

  /** `std::process::Command`, as far as the tool uses it: a builder whose program
      is fixed at creation and whose argument list grows by `arg` and `args`. */
  class Command {
    const program: string
    var arguments: seq<string>

    constructor (program: string)
      ensures this.program == program && arguments == []
    {
      this.program := program;
      arguments := [];
    }

    /** `Command::arg`: appends one argument. */
    method Arg(a: string)
      modifies this
      ensures arguments == old(arguments) + [a]
    {
      arguments := arguments + [a];
    }

    /** `Command::args`: appends several arguments, in order. */
    method Args(more: seq<string>)
      modifies this
      ensures arguments == old(arguments) + more
    {
      arguments := arguments + more;
    }

    /** The invocation the command would make if run now. */
    function Snapshot(): Invocation
      reads this
    {
      Invocation(program, arguments)
    }
  }
}
