/**
 * The process builder `std::process::Command`, as far as `cargo verify-pallet`
 * uses it: a program, arguments appended one at a time or many at once, and
 * environment entries set for the child. Spawning is not modelled; a built
 * command is read out as a `CommandLine` value.
 */
module Commands {

  /** What a command would run: its program, its arguments in order, and the
      environment entries it sets on top of the inherited environment. */
  datatype CommandLine = CommandLine(program: string, args: seq<string>, envs: map<string, string>)

  class Command {
    var program: string
    var args: seq<string>
    var envs: map<string, string>

    /** `Command::new(program)`: no arguments, no explicit environment entries. */
    constructor (program: string)
      ensures this.program == program && args == [] && envs == map[]
    {
      this.program := program;
      args := [];
      envs := map[];
    }

    /** `Command::arg`: appends one argument. */
    method Arg(arg: string)
      modifies this
      ensures program == old(program) && envs == old(envs)
      ensures args == old(args) + [arg]
    {
      args := args + [arg];
    }

    /** `Command::args`: appends every argument of `more`, in order. */
    method Args(more: seq<string>)
      modifies this
      ensures program == old(program) && envs == old(envs)
      ensures args == old(args) + more
    {
      var i := 0;
      while i < |more|
        invariant 0 <= i <= |more|
        invariant program == old(program) && envs == old(envs)
        invariant args == old(args) + more[..i]
      {
        Arg(more[i]);
        assert more[..i + 1] == more[..i] + [more[i]];
        i := i + 1;
      }
      assert more[..i] == more;
    }

    /** `Command::env`: sets `key` to `val`, replacing an earlier entry for `key`. */
    method Env(key: string, val: string)
      modifies this
      ensures program == old(program) && args == old(args)
      ensures envs == old(envs)[key := val]
    {
      envs := envs[key := val];
    }

    /** The command as built so far. */
    function Line(): (line: CommandLine)
      reads this
    {
      CommandLine(program, args, envs)
    }
  }
}
