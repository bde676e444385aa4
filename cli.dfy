/**
 * `cargo verify-pallet` (src/main.rs): the cargo sub-command that either starts
 * `cargo check` with itself installed as `RUSTC_WRAPPER`, or, when cargo calls
 * it back as the wrapper, sends the primary package to `pallet-verifier` and
 * everything else (dependencies, build scripts) to plain `rustc`.
 *
 * Everything the program reads from its process is an input here: the
 * argument list (`env::args()`, program name first), the environment
 * variables, the executable's own path, the toolchain fixed at build time,
 * whether it was built for Windows, and `cli_utils::is_rustc_path`. Instead of
 * spawning a process, the program's run ends in an `Outcome` that carries the
 * command it would execute.
 */
module CargoVerifyPallet {
  import opened Wrappers
  import opened Paths
  import opened Commands

  /** The sub-command that starts the whole analysis. */
  const VerifyPalletSubcommand: string := "verify-pallet"
  /** File name of a cargo build script. */
  const BuildScriptFile: string := "build.rs"
  /** Crate name cargo gives to build scripts. */
  const BuildScriptCrate: string := "build_script_build"
  /** Suffix of the flag that precedes the crate name. */
  const CrateNameFlag: string := "crate-name"

  const SubcommandMessage: string := "Expected a valid cargo subcommand as the first argument."
  const ExeMessage: string := "Expected valid executable path"

  const RustcWrapperVar: string := "RUSTC_WRAPPER"
  const RustFlagsVar: string := "RUSTFLAGS"
  const RustupToolchainVar: string := "RUSTUP_TOOLCHAIN"
  const MiraiRustFlags: string := "--cfg=mirai -Zalways_encode_mir"
  const CargoProgram: string := "cargo"
  const CheckSubcommand: string := "check"
  const VerifierName: string := "pallet-verifier"
  const WindowsExtension: string := "exe"

  /** What the program reads from its surroundings, besides its arguments. */
  datatype Env = Env(
    primaryPackage: bool,           // `CARGO_PRIMARY_PACKAGE` is set (to valid Unicode)
    cargo: Option<string>,          // `CARGO`, when set
    currentExe: Option<ExePath>,    // `env::current_exe()`, `None` when it fails
    buildToolchain: Option<string>, // `option_env!("RUSTUP_TOOLCHAIN")`, fixed at build time
    windows: bool                   // `cfg!(windows)`
  )

  /** How a run of the program ends. */
  datatype Outcome =
    | ExecCargo(cmd: CommandLine)          // `call_cargo` executes `cmd`
    | ExecPalletVerifier(cmd: CommandLine) // `call_pallet_verifier` executes `cmd`
    | CallRustc(rustcArgs: seq<string>)    // `cli_utils::call_rustc` with these arguments
    | ErrorExit(message: string, code: int) // message on stderr, then `process::exit(code)`
    | Panic(message: string)               // an `expect` fails

  /** The branch `main` takes. */
  datatype Route = MissingSubcommand | CargoCheck | PalletVerifier | Rustc | InvalidSubcommand

  /** `env::args().skip(n)`. */
  function Skip(args: seq<string>, n: nat): (rest: seq<string>)
    ensures |rest| == if |args| <= n then 0 else |args| - n
    ensures forall i :: n <= i < |args| ==> rest[i - n] == args[i]
  {
    if |args| <= n then [] else args[n..]
  }

  /** `str::ends_with`: some tail of `s` is `suffix`. */
  predicate EndsWith(s: string, suffix: string): (b: bool)
    ensures b <==> exists k :: 0 <= k <= |s| && s[k..] == suffix
  {
    |suffix| <= |s| && s[|s| - |suffix|..] == suffix
  }

  /** The argument at `idx` names a build script's file: its last component is `build.rs`. */
  predicate IsBuildRsAt(args: seq<string>, idx: nat): (b: bool)
    requires idx < |args|
    ensures b <==> var cs := Components(Split(args[idx]));
                   cs != [] && cs[|cs| - 1] == BuildScriptFile
  {
    FileName(args[idx]) == Some(BuildScriptFile)
  }

  /** The argument at `idx` is the crate name `build_script_build`, following a `…crate-name` flag. */
  predicate IsBuildCrateNameAt(args: seq<string>, idx: nat): (b: bool)
    requires idx < |args|
    ensures b ==> 0 < idx
    ensures b <==> && args[idx] == BuildScriptCrate && 0 < idx
                   && var flag := args[idx - 1];
                      exists k :: 0 <= k <= |flag| && flag[k..] == CrateNameFlag
  {
    args[idx] == BuildScriptCrate && idx > 0 && EndsWith(args[idx - 1], CrateNameFlag)
  }

  /** `env::args().any(..)` over the file names of the arguments from `from` on. */
  function AnyBuildRs(args: seq<string>, from: nat): (found: bool)
    requires from <= |args|
    ensures found <==> exists i :: from <= i < |args| && IsBuildRsAt(args, i)
    decreases |args| - from
  {
    if from == |args| then false
    else IsBuildRsAt(args, from) || AnyBuildRs(args, from + 1)
  }

  /** `env::args().enumerate().any(..)` over the crate-name test from index `from` on. */
  function AnyBuildCrateName(args: seq<string>, from: nat): (found: bool)
    requires from <= |args|
    ensures found <==> exists i :: from <= i < |args| && IsBuildCrateNameAt(args, i)
    decreases |args| - from
  {
    if from == |args| then false
    else IsBuildCrateNameAt(args, from) || AnyBuildCrateName(args, from + 1)
  }

  /** The `is_build_script` closure of `main`: both searches must succeed. */
  function IsBuildScript(args: seq<string>): (b: bool)
    ensures b <==> ((exists i :: 0 <= i < |args| && IsBuildRsAt(args, i))
                    && (exists j :: 0 <= j < |args| && IsBuildCrateNameAt(args, j)))
  {
    AnyBuildRs(args, 0) && AnyBuildCrateName(args, 0)
  }

  /** The branch `main` takes for `args`. */
  function Decide(args: seq<string>, primaryPackage: bool, isRustcPath: string -> bool): (r: Route)
    ensures r == MissingSubcommand <==> |args| < 2
    ensures r == CargoCheck <==> |args| >= 2 && args[1] == VerifyPalletSubcommand
    ensures r in {PalletVerifier, Rustc}
            <==> |args| >= 2 && args[1] != VerifyPalletSubcommand && isRustcPath(args[1])
    ensures r == PalletVerifier ==> primaryPackage && !IsBuildScript(args)
    ensures r == InvalidSubcommand
            <==> |args| >= 2 && args[1] != VerifyPalletSubcommand && !isRustcPath(args[1])
  {
    if |args| < 2 then MissingSubcommand
    else if args[1] == VerifyPalletSubcommand then CargoCheck
    else if isRustcPath(args[1]) then
      if primaryPackage && !IsBuildScript(args) then PalletVerifier else Rustc
    else InvalidSubcommand
  }

  /** The command `call_cargo` builds. */
  ghost predicate IsCargoCommand(c: CommandLine, env: Env, args: seq<string>)
    requires env.currentExe.Some?
  {
    && c.program == (if env.cargo.Some? then env.cargo.value else CargoProgram)
    && |c.args| == 1 + |Skip(args, 2)|
    && c.args[0] == CheckSubcommand
    && (forall i :: 2 <= i < |args| ==> c.args[i - 1] == args[i])
    && c.envs.Keys == {RustcWrapperVar, RustFlagsVar}
                      + (if env.buildToolchain.Some? then {RustupToolchainVar} else {})
    && c.envs[RustcWrapperVar] == Render(env.currentExe.value)
    && c.envs[RustFlagsVar] == MiraiRustFlags
    && (env.buildToolchain.Some? ==> c.envs[RustupToolchainVar] == env.buildToolchain.value)
  }

  /** File name of the `pallet-verifier` executable: `.exe` is added on Windows. */
  function VerifierFileName(windows: bool): (name: string)
    ensures IsNormal(name)
  {
    if windows then VerifierName + "." + WindowsExtension else VerifierName
  }

  /** The command `call_pallet_verifier` builds: `pallet-verifier` from this executable's directory. */
  ghost predicate IsPalletVerifierCommand(c: CommandLine, env: Env, args: seq<string>)
    requires env.currentExe.Some?
  {
    && c.program == Render(Parent(env.currentExe.value) + [VerifierFileName(env.windows)])
    && |c.args| == |Skip(args, 2)|
    && (forall i :: 2 <= i < |args| ==> c.args[i - 2] == args[i])
    && c.envs == map[]
  }

  ghost predicate CargoOutcome(o: Outcome, env: Env, args: seq<string>) {
    if env.currentExe.None? then o == Panic(ExeMessage)
    else o.ExecCargo? && IsCargoCommand(o.cmd, env, args)
  }

  ghost predicate PalletVerifierOutcome(o: Outcome, env: Env, args: seq<string>) {
    if env.currentExe.None? then o == Panic(ExeMessage)
    else o.ExecPalletVerifier? && IsPalletVerifierCommand(o.cmd, env, args)
  }

  /** `call_cargo`. */
  method CallCargo(env: Env, args: seq<string>) returns (o: Outcome)
    ensures CargoOutcome(o, env, args)
  {
    var cmd := new Command(if env.cargo.Some? then env.cargo.value else CargoProgram);
    cmd.Arg(CheckSubcommand);
    if env.currentExe.None? {
      return Panic(ExeMessage);
    }
    var path := env.currentExe.value;
    cmd.Env(RustcWrapperVar, Render(path));
    cmd.Env(RustFlagsVar, MiraiRustFlags);
    if env.buildToolchain.Some? {
      cmd.Env(RustupToolchainVar, env.buildToolchain.value);
    }
    cmd.Args(Skip(args, 2));
    o := ExecCargo(cmd.Line());
  }

  /** On Windows, `set_extension("exe")` turns `pallet-verifier` into `pallet-verifier.exe`. */
  lemma WindowsVerifierPath(exe: ExePath)
    ensures SetExtension(WithFileName(exe, VerifierName), WindowsExtension)
            == Parent(exe) + [VerifierFileName(true)]
  {
  }

  /** `call_pallet_verifier`. */
  method CallPalletVerifier(env: Env, args: seq<string>) returns (o: Outcome)
    ensures PalletVerifierOutcome(o, env, args)
  {
    if env.currentExe.None? {
      return Panic(ExeMessage);
    }
    var path := WithFileName(env.currentExe.value, VerifierName);
    assert path == path[..|path| - 1] + [VerifierName];
    if env.windows {
      WindowsVerifierPath(env.currentExe.value);
      path := SetExtension(path, WindowsExtension);
    }
    var cmd := new Command(Render(path));
    cmd.Args(Skip(args, 2));
    o := ExecPalletVerifier(cmd.Line());
  }

  /** `main`, after `cli_utils::handle_meta_args`. */
  method Run(args: seq<string>, env: Env, isRustcPath: string -> bool) returns (o: Outcome)
    ensures match Decide(args, env.primaryPackage, isRustcPath)
            case MissingSubcommand => o == Panic(SubcommandMessage)
            case CargoCheck => CargoOutcome(o, env, args)
            case PalletVerifier => PalletVerifierOutcome(o, env, args)
            case Rustc => o == CallRustc(Skip(args, 2))
            case InvalidSubcommand => o == ErrorExit(SubcommandMessage, 1)
  {
    if |args| < 2 {
      return Panic(SubcommandMessage);
    }
    var subCommand := args[1];
    if subCommand == VerifyPalletSubcommand {
      o := CallCargo(env, args);
    } else if isRustcPath(subCommand) {
      var isPrimaryPackage := env.primaryPackage;
      if isPrimaryPackage && !IsBuildScript(args) {
        o := CallPalletVerifier(env, args);
      } else {
        o := CallRustc(Skip(args, 2));
      }
    } else {
      o := ErrorExit(SubcommandMessage, 1);
    }
  }

  // Routing

  /** Without a sub-command argument the program panics instead of picking a branch. */
  lemma MissingSubcommandPanics(args: seq<string>, primaryPackage: bool, isRustcPath: string -> bool)
    requires |args| < 2
    ensures Decide(args, primaryPackage, isRustcPath) == MissingSubcommand
  {
  }

  /** `verify-pallet` always starts cargo, even when it is also a rustc path. */
  lemma VerifyPalletTakesPrecedence(args: seq<string>, primaryPackage: bool, isRustcPath: string -> bool)
    requires |args| >= 2 && args[1] == VerifyPalletSubcommand
    ensures Decide(args, primaryPackage, isRustcPath) == CargoCheck
  {
  }

  /** Any other sub-command that is not a rustc path is rejected with exit code 1. */
  lemma InvalidSubcommandRejected(args: seq<string>, primaryPackage: bool, isRustcPath: string -> bool)
    requires |args| >= 2 && args[1] != VerifyPalletSubcommand && !isRustcPath(args[1])
    ensures Decide(args, primaryPackage, isRustcPath) == InvalidSubcommand
  {
  }

  /**
   * Called as the rustc wrapper, the program runs `pallet-verifier` exactly for
   * a primary package that is not a build script, and `rustc` otherwise.
   */
  lemma RustcPathRouting(args: seq<string>, primaryPackage: bool, isRustcPath: string -> bool)
    requires |args| >= 2 && args[1] != VerifyPalletSubcommand && isRustcPath(args[1])
    ensures Decide(args, primaryPackage, isRustcPath) == PalletVerifier
            <==> primaryPackage && !IsBuildScript(args)
    ensures Decide(args, primaryPackage, isRustcPath) in {PalletVerifier, Rustc}
  {
  }

  // The build-script detector

  /** Where the two arguments sit does not matter: each search succeeds on its own. */
  lemma BuildScriptAnyPositions(args: seq<string>, i: nat, j: nat)
    requires i < |args| && FileName(args[i]) == Some(BuildScriptFile)
    requires 0 < j < |args| && args[j] == BuildScriptCrate && EndsWith(args[j - 1], CrateNameFlag)
    ensures IsBuildScript(args)
  {
    assert IsBuildRsAt(args, i) && IsBuildCrateNameAt(args, j);
  }

  /**
   * Only an argument equal to `build_script_build` after the first can satisfy
   * the crate-name test: the program name at index 0 never does, and neither
   * does a single `--crate-name=build_script_build`.
   */
  lemma NoCrateNameArgNoBuildScript(args: seq<string>)
    requires forall i :: 0 < i < |args| ==> args[i] != BuildScriptCrate
    ensures !IsBuildScript(args)
  {
  }

  /** Without an argument whose file name is `build.rs` nothing is a build script. */
  lemma NoBuildRsArgNoBuildScript(args: seq<string>)
    requires forall i :: 0 <= i < |args| ==> FileName(args[i]) != Some(BuildScriptFile)
    ensures !IsBuildScript(args)
  {
  }

  /** An argument `dir/build.rs` names a build script's file, whatever `dir` is. */
  lemma BuildRsInDirectory(args: seq<string>, i: nat, dir: string)
    requires i < |args| && args[i] == dir + [Separator] + BuildScriptFile
    ensures IsBuildRsAt(args, i)
    ensures args[i] != BuildScriptCrate
  {
    FileNameAfterSeparator(dir, BuildScriptFile);
    assert args[i][|dir|] == Separator;
  }

  /** An argument without separators other than `build.rs` does not name a build script's file. */
  lemma SegmentNotBuildRs(args: seq<string>, i: nat)
    requires i < |args| && IsNormal(args[i]) && args[i] != BuildScriptFile
    ensures !IsBuildRsAt(args, i)
  {
    FileNameOfSegment(args[i]);
  }

  /** The invocation cargo uses for a build script is recognised. */
  lemma BuildScriptInvocationRecognised(args: seq<string>, prog: string, rustc: string, dir: string)
    requires args == [prog, rustc, "--crate-name", BuildScriptCrate, "--edition=2021",
                      dir + [Separator] + BuildScriptFile]
    ensures IsBuildScript(args)
  {
    BuildRsInDirectory(args, 5, dir);
    assert IsBuildCrateNameAt(args, 3);
  }

  /** A `build.rs` argument alone does not make a build script. */
  lemma BuildRsAloneInsufficient(args: seq<string>, prog: string, rustc: string, dir: string)
    requires args == [prog, rustc, dir + [Separator] + BuildScriptFile]
    requires rustc != BuildScriptCrate
    ensures AnyBuildRs(args, 0)
    ensures !IsBuildScript(args)
  {
    BuildRsInDirectory(args, 2, dir);
    ProgramNameNotCrateName(args);
    assert !IsBuildCrateNameAt(args, 1) && !IsBuildCrateNameAt(args, 2);
    assert !AnyBuildCrateName(args, 1);
  }

  /** The flag `--crate-name` and the crate name itself do not name a build script's file. */
  lemma CrateNameArgsNotBuildRs(args: seq<string>)
    requires |args| >= 4 && args[2] == "--crate-name" && args[3] == BuildScriptCrate
    ensures !IsBuildRsAt(args, 2) && !IsBuildRsAt(args, 3)
  {
    SegmentNotBuildRs(args, 2);
    SegmentNotBuildRs(args, 3);
  }

  /**
   * The crate name `build_script_build` after its flag alone does not make a
   * build script, when the other arguments (program name, rustc path, one
   * source file) do not name `build.rs`.
   */
  lemma CrateNameAloneInsufficient(args: seq<string>, prog: string, rustc: string, file: string)
    requires args == [prog, rustc, "--crate-name", BuildScriptCrate, file]
    requires !IsBuildRsAt(args, 0) && !IsBuildRsAt(args, 1) && !IsBuildRsAt(args, 4)
    ensures AnyBuildCrateName(args, 0)
    ensures !IsBuildScript(args)
  {
    assert IsBuildCrateNameAt(args, 3);
    CrateNameArgsNotBuildRs(args);
    assert !AnyBuildRs(args, 3);
    assert !AnyBuildRs(args, 1);
  }

  /** The argument at index 0, the program name, never passes the crate-name test. */
  lemma ProgramNameNotCrateName(args: seq<string>)
    requires |args| > 0
    ensures !IsBuildCrateNameAt(args, 0)
  {
  }

  /**
   * `--crate-name=build_script_build` in a single argument passes the
   * crate-name test neither itself nor for the argument after it.
   */
  lemma FusedCrateNameNotRecognised(args: seq<string>, i: nat)
    requires i < |args| && args[i] == "--crate-name=build_script_build"
    ensures !IsBuildCrateNameAt(args, i)
    ensures i + 1 < |args| ==> !IsBuildCrateNameAt(args, i + 1)
  {
  }

  /** An example: `build_script_build` as the program name, with a `build.rs` argument. */
  lemma ProgramNameCrateNameExample(args: seq<string>, rustc: string, dir: string)
    requires args == [BuildScriptCrate, rustc, dir + [Separator] + BuildScriptFile]
    requires rustc != BuildScriptCrate
    ensures AnyBuildRs(args, 0)
    ensures !IsBuildScript(args)
  {
    BuildRsInDirectory(args, 2, dir);
    ProgramNameNotCrateName(args);
    assert !IsBuildCrateNameAt(args, 1) && !IsBuildCrateNameAt(args, 2);
    assert !AnyBuildCrateName(args, 1);
  }

  /** An example: a fused `--crate-name=build_script_build`, with a `build.rs` argument. */
  lemma FusedCrateNameExample(args: seq<string>, prog: string, rustc: string, dir: string)
    requires args == [prog, rustc, "--crate-name=build_script_build", dir + [Separator] + BuildScriptFile]
    requires rustc != BuildScriptCrate
    ensures AnyBuildRs(args, 0)
    ensures !IsBuildScript(args)
  {
    BuildRsInDirectory(args, 3, dir);
  }

  // The commands

  /** The cargo command is fully determined by the environment and the arguments. */
  lemma CargoCommandDetermined(c1: CommandLine, c2: CommandLine, env: Env, args: seq<string>)
    requires env.currentExe.Some?
    requires IsCargoCommand(c1, env, args) && IsCargoCommand(c2, env, args)
    ensures c1 == c2
  {
    assert c1.args == c2.args by {
      forall k | 0 <= k < |c1.args| ensures c1.args[k] == c2.args[k] {
        if k > 0 {
          assert c1.args[(k + 1) - 1] == args[k + 1];
        }
      }
    }
    assert c1.envs == c2.envs;
  }

  /** The cargo command runs `check`, followed by every argument after the sub-command, in order. */
  lemma CargoCommandArgs(c: CommandLine, env: Env, args: seq<string>)
    requires env.currentExe.Some? && IsCargoCommand(c, env, args)
    ensures c.args == [CheckSubcommand] + Skip(args, 2)
  {
  }

  /**
   * The `pallet-verifier` program sits in the directory of the running
   * executable, under the file name `pallet-verifier` (`pallet-verifier.exe`
   * on Windows).
   */
  lemma PalletVerifierProgram(c: CommandLine, env: Env, args: seq<string>)
    requires env.currentExe.Some? && IsPalletVerifierCommand(c, env, args)
    ensures FileName(c.program) == Some(VerifierFileName(env.windows))
    ensures Components(Split(c.program)) == Parent(env.currentExe.value) + [VerifierFileName(env.windows)]
  {
    var p: ExePath := Parent(env.currentExe.value) + [VerifierFileName(env.windows)];
    FileNameOfRender(p);
    RenderComponents(p);
  }

  /** The `pallet-verifier` command is fully determined by the environment and the arguments. */
  lemma PalletVerifierCommandDetermined(c1: CommandLine, c2: CommandLine, env: Env, args: seq<string>)
    requires env.currentExe.Some?
    requires IsPalletVerifierCommand(c1, env, args) && IsPalletVerifierCommand(c2, env, args)
    ensures c1 == c2
  {
  }
}
