# pallet-verifier: the `cargo verify-pallet` front end and the cross-pass names

pallet-verifier finds security problems in FRAME pallets by compiling the pallet
crate twice. The first pass generates entry-point functions and contract stubs.
The second pass runs the MIRAI analyser on them. This project models two small
parts of it and proves what they do:

- **`cargo verify-pallet`** (`src/main.rs`). Run by the user, it starts
  `cargo check` with itself installed as `RUSTC_WRAPPER`. Called back by cargo
  as that wrapper, it sends the primary package to the `pallet-verifier`
  binary. Dependencies and build scripts go to plain `rustc`. It recognises a
  build script by two independent searches over its arguments. Any unknown
  sub-command makes it print an error and exit with code 1.
- **The names both passes agree on** (`src/lib.rs`). These are the generated
  module names, the entry-point function prefix and the pointer-width variable.
  They also include `CallKind` and its display strings.

Modules, one per concern:

| file | module | models |
|---|---|---|
| `wrappers.dfy` | `Wrappers` | `Option` |
| `names.dfy` | `PalletNames` | `src/lib.rs`: the constants, `CallKind`, `Display`, and the name built with the prefix |
| `paths.dfy` | `Paths` | the parts of `std::path` that `main.rs` uses: `file_name`, `with_file_name`, `set_extension` |
| `commands.dfy` | `Commands` | `std::process::Command` as a builder class: program, `arg`, `args`, `env` |
| `cli.dfy` | `CargoVerifyPallet` | `src/main.rs`: `main`, the `is_build_script` closure, `call_cargo`, `call_pallet_verifier` |

The program's surroundings become inputs. These are the argument list (program
name first), the `CARGO_PRIMARY_PACKAGE` and `CARGO` variables, the result of
`env::current_exe()`, the toolchain fixed at build time by
`option_env!("RUSTUP_TOOLCHAIN")`, `cfg!(windows)`, and
`cli_utils::is_rustc_path`, which is passed as a `string -> bool` parameter.
No process is spawned. A run ends in an `Outcome`: the cargo or
`pallet-verifier` command it would execute, the arguments handed to
`cli_utils::call_rustc`, an error exit with its code, or a panic from a failed
`expect`.

The routing decision is the pure function `Decide`. `Run` is the method that
makes the same decision and builds the commands with the imperative `Command`
class, as `main`, `call_cargo` and `call_pallet_verifier` do.

Where the comments and the code differ, the model follows the code. The comment
at `src/main.rs:32` says the *first* `*.rs` argument should be `build.rs`. The
code accepts *any* argument whose file name is `build.rs`, at any position, and
so does the model (`BuildScriptAnyPositions`).

## Model

| member | source | states |
|---|---|---|
| `PalletNames.Display` | src/lib.rs:61-72 | `Dispatchable` is shown as exactly `"dispatchable"` and `PubAssocFn` as exactly `"pub assoc fn"`, both ways round |
| `PalletNames.ParseCallKind` | src/lib.rs:61-72 | reading a display string back only ever yields a kind whose display is that string |
| `PalletNames.DisplayRoundTrip` | src/lib.rs:61-72 | parsing the display string of any kind gives that kind back |
| `PalletNames.DisplayInjective` | src/lib.rs:61-72 | two kinds have the same display string exactly when they are the same kind |
| `PalletNames.CallKindExhaustive` | src/lib.rs:55-59 | every kind is one of the two variants, and the two variants differ |
| `PalletNames.EntryPointFnName` | src/lib.rs:45-46 | a generated entry-point name starts with `__pallet_verifier_entry_point__` and continues with the discriminator |
| `PalletNames.StripEntryPointPrefix` | src/lib.rs:45-46 | a name is recognised exactly when it starts with the prefix, and then prepending the prefix to what is recovered gives the name back |
| `PalletNames.EntryPointNameRoundTrip` | src/lib.rs:45-46 | stripping the prefix from a generated name recovers the discriminator |
| `PalletNames.StripEntryPointPrefixComplete` | src/lib.rs:45-46 | stripping yields `name` if and only if the string is the generated name for `name` |
| `PalletNames.EntryPointFnNameInjective` | src/lib.rs:45-46 | distinct discriminators give distinct generated names |
| `PalletNames.ConstantsDistinct` | src/lib.rs:43-52 | the two module names, the prefix and the pointer-width variable name are pairwise distinct |
| `PalletNames.EntryPointFnNameAvoidsModNames` | src/lib.rs:43-49 | no generated entry-point name equals the entry-points module name or the contracts module name |
| `Paths.FileName` | src/main.rs:34-36 | a file name, when there is one, is non-empty, is not `.` or `..`, and contains no separator |
| `Paths.FileNameAfterSeparator` | src/main.rs:34-36 | the file name of `dir/name` is `name` for every `dir` |
| `Paths.FileNameOfSegment` | src/main.rs:34-36 | a bare name without separators is its own file name |
| `Paths.JoinSplit` | src/main.rs:34-36 | joining the `/`-separated segments of a path with `/` gives the path back |
| `Paths.SplitJoin` | src/main.rs:34-36 | splitting segments without separators after joining them gives the segments back |
| `Paths.FileNameOfRender` | src/main.rs:90-96 | the file name of a rendered executable path is its last component, and the root has none |
| `Paths.RenderComponents` | src/main.rs:90-96 | the components read back from a rendered executable path are that path |
| `Paths.Parent` | src/main.rs:90-92 | the parent is a prefix of the path, one component shorter unless the path is the root |
| `Paths.WithFileName` | src/main.rs:90-92 | `with_file_name` keeps the parent directory and puts `name` last |
| `Paths.FileStem` | src/main.rs:93-95 | the stem is the name cut before its last dot; a name with no dot, or whose only dot is its first character (`.bashrc`), is its own stem; a shortened stem is always followed by the dot of the last extension |
| `Paths.SetExtension` | src/main.rs:93-95 | `set_extension` keeps the parent directory and makes the new file name the old file stem followed by `.` and the extension, so an existing extension is replaced |
| `Paths.SetExtensionOfPlainName` | src/main.rs:93-95 | giving a dot-free file name an extension appends `.` and the extension |
| `Commands.Command.constructor` | src/main.rs:65 | a new command has the given program, no arguments and no environment entries |
| `Commands.Command.Arg` | src/main.rs:66 | `arg` appends exactly one argument and changes nothing else |
| `Commands.Command.Args` | src/main.rs:81 | `args` appends all the given arguments in order and changes nothing else |
| `Commands.Command.Env` | src/main.rs:70-77 | `env` sets one entry, replacing an earlier value for that key, and changes nothing else |
| `CargoVerifyPallet.Skip` | src/main.rs:81 | `skip(n)` keeps the arguments from index `n` on, in order, and is empty for a shorter list |
| `CargoVerifyPallet.EndsWith` | src/main.rs:44 | `ends_with` holds exactly when some tail of the string equals the suffix |
| `CargoVerifyPallet.IsBuildRsAt` | src/main.rs:34-36 | an argument passes the file-name test exactly when its last path component is `build.rs` |
| `CargoVerifyPallet.IsBuildCrateNameAt` | src/main.rs:40-44 | an argument passes the crate-name test exactly when it equals `build_script_build`, sits at an index above 0, and some tail of the argument before it equals `crate-name` |
| `CargoVerifyPallet.AnyBuildRs` | src/main.rs:33-37 | the search succeeds exactly when some argument has the file name `build.rs` |
| `CargoVerifyPallet.AnyBuildCrateName` | src/main.rs:39-45 | the search succeeds exactly when some argument at an index above 0 equals `build_script_build` and the argument just before it ends with `crate-name` |
| `CargoVerifyPallet.IsBuildScript` | src/main.rs:31-46 | a target is a build script exactly when both searches succeed |
| `CargoVerifyPallet.VerifierFileName` | src/main.rs:92-95 | the `pallet-verifier` file name is a valid path component on every platform |
| `CargoVerifyPallet.Decide` | src/main.rs:18-58 | no branch without a sub-command; cargo exactly for `verify-pallet`; the rustc branch (verifier or `rustc`) exactly for another sub-command that is a rustc path, with the verifier only for a primary package that is not a build script; rejection exactly for every other sub-command |
| `CargoVerifyPallet.CallCargo` | src/main.rs:63-85 | the cargo command: program `CARGO` or `cargo`; arguments `check` then every argument from index 2 on; `RUSTC_WRAPPER` set to this executable; `RUSTFLAGS` set to `--cfg=mirai -Zalways_encode_mir`; `RUSTUP_TOOLCHAIN` set exactly when a build-time toolchain exists and to that value; a panic when the executable path is unavailable |
| `CargoVerifyPallet.WindowsVerifierPath` | src/main.rs:90-95 | on Windows the verifier path is the executable's directory followed by `pallet-verifier.exe` |
| `CargoVerifyPallet.CallPalletVerifier` | src/main.rs:88-101 | the `pallet-verifier` command: program in this executable's directory, named `pallet-verifier` (`.exe` on Windows); arguments from index 2 on; no environment entries; a panic when the executable path is unavailable |
| `CargoVerifyPallet.Run` | src/main.rs:13-59 | the outcome for each branch of `main`: a panic without a sub-command, the cargo command for `verify-pallet`, the verifier command or `rustc` with the arguments from index 2 on for a rustc path, else the error message with exit code 1 |
| `CargoVerifyPallet.MissingSubcommandPanics` | src/main.rs:18-20 | with fewer than two arguments no branch is taken |
| `CargoVerifyPallet.VerifyPalletTakesPrecedence` | src/main.rs:21-23 | `verify-pallet` selects cargo whatever `is_rustc_path` says and whatever the environment is |
| `CargoVerifyPallet.InvalidSubcommandRejected` | src/main.rs:55-58 | a sub-command that is neither `verify-pallet` nor a rustc path is rejected |
| `CargoVerifyPallet.RustcPathRouting` | src/main.rs:28-53 | on a rustc path, `pallet-verifier` is chosen if and only if the package is primary and not a build script, and `rustc` otherwise |
| `CargoVerifyPallet.BuildScriptAnyPositions` | src/main.rs:31-46 | a `build.rs` argument and a `…crate-name build_script_build` pair anywhere in the list make a build script; the two need not be related |
| `CargoVerifyPallet.NoCrateNameArgNoBuildScript` | src/main.rs:39-45 | without an argument equal to `build_script_build` after index 0 nothing is a build script |
| `CargoVerifyPallet.NoBuildRsArgNoBuildScript` | src/main.rs:33-37 | without an argument whose file name is `build.rs` nothing is a build script |
| `CargoVerifyPallet.BuildRsInDirectory` | src/main.rs:33-37 | an argument `dir/build.rs` passes the file-name test and is not the crate name |
| `CargoVerifyPallet.SegmentNotBuildRs` | src/main.rs:33-37 | an argument without separators other than `build.rs` fails the file-name test |
| `CargoVerifyPallet.CrateNameArgsNotBuildRs` | src/main.rs:33-37 | neither `--crate-name` nor `build_script_build` passes the file-name test |
| `CargoVerifyPallet.BuildScriptInvocationRecognised` | src/main.rs:31-46 | cargo's invocation of a build script (`--crate-name build_script_build … dir/build.rs`) is recognised |
| `CargoVerifyPallet.BuildRsAloneInsufficient` | src/main.rs:31-46 | a `build.rs` argument without the crate name is not a build script |
| `CargoVerifyPallet.CrateNameAloneInsufficient` | src/main.rs:31-46 | `--crate-name build_script_build` without a `build.rs` argument is not a build script |
| `CargoVerifyPallet.ProgramNameNotCrateName` | src/main.rs:39-45 | in every argument list, the argument at index 0 fails the crate-name test |
| `CargoVerifyPallet.FusedCrateNameNotRecognised` | src/main.rs:39-45 | in every argument list, a `--crate-name=build_script_build` argument fails the crate-name test, and so does the argument after it |
| `CargoVerifyPallet.ProgramNameCrateNameExample` | src/main.rs:31-46 | an example: with `build_script_build` as the program name and a `build.rs` argument, the target is not a build script |
| `CargoVerifyPallet.FusedCrateNameExample` | src/main.rs:31-46 | an example: with a fused `--crate-name=build_script_build` and a `build.rs` argument, the target is not a build script |
| `CargoVerifyPallet.CargoCommandDetermined` | src/main.rs:63-81 | the description of the cargo command leaves exactly one possible command |
| `CargoVerifyPallet.CargoCommandArgs` | src/main.rs:66-81 | the cargo command's argument list is `check` followed by the forwarded arguments |
| `CargoVerifyPallet.PalletVerifierProgram` | src/main.rs:90-96 | the verifier program's file name is `pallet-verifier` (or `pallet-verifier.exe`) and its directory is the running executable's |
| `CargoVerifyPallet.PalletVerifierCommandDetermined` | src/main.rs:88-97 | the description of the verifier command leaves exactly one possible command |

## Left out

- `cli_utils` is not part of this model. `handle_meta_args` may print help or version text and exit before routing; the model starts after it. `is_rustc_path` is a parameter. `call_rustc` and `exec_cmd` are the ends of a run (`Outcome.CallRustc`, `Outcome.ExecCargo`, `Outcome.ExecPalletVerifier`); what they spawn, and `exec_cmd` exiting when the child fails, are not modelled.
- Process I/O: reading the environment, `env::current_exe` and `eprintln!`. They are inputs, and the error message is a field of the outcome. The child inherits the parent's environment; `CommandLine.envs` holds only the entries set explicitly.
- `env::args` panics on an argument that is not valid Unicode, and `env::var` treats a non-Unicode value as an error. Arguments are strings here, and a variable is either set or not.
- A panic is `Outcome.Panic` with the `expect` message. The appended error text and the exit status 101 are not modelled.
- Paths.FileName: models `Path::file_name` on `/`-separated paths only. Separators and drive prefixes specific to Windows are not modelled, and `.` segments are dropped everywhere, including at the start of a path.
- Paths.SetExtension: requires a non-empty extension. The empty-extension case of `set_extension`, which removes an extension, is never used by the program.
- The model assumes that `env::current_exe` gives an absolute path made only of normal components. A real path can differ: on macOS it is not canonicalised and may contain `.` or `..`, and on Windows it starts with a drive prefix. The path is rendered with `/` on every platform.
- `COMMAND` (`"cargo verify-pallet"`) is not modelled. Only `handle_meta_args` uses it.
- The modules behind `mod callbacks`, `file_loader`, `providers` and `utils` are not part of this model. That covers entry-point synthesis, the virtual file loader, the query providers, the verifier callbacks, and how the entry-point discriminator and the pointer width are actually produced and read. `EntryPointFnName` and `ENV_TARGET_POINTER_WIDTH` are modelled only as the documented prefix rule and the constant.
- The `rustc_*` crates and the MIRAI analysis are compiler internals outside the code.
