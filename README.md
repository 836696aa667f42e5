# cargo-wasm, modelled in Dafny

`cargo wasm build` reads the project metadata and keeps every workspace member, as soon
as any package of the metadata is named `wasm-bindgen`. It tags all of them with the
version of the first such package. For each distinct version it runs
`cargo install --root ./target/wasm-bindgen-cli/<version> -- wasm-bindgen-cli`, which has
no `--version` and so installs cargo's latest wasm-bindgen-cli under that root. It runs
those installs on a second thread. Beside them, on the calling thread, it runs one
`cargo build --target wasm32-unknown-unknown` per kept package. These builds name no
package. When both are done, it runs that root's `wasm-bindgen` on each package's
compiled module to generate the JavaScript glue. `WasmOpt::try_install_and_run`
(src/wasm_opt.rs) fetches a pinned binaryen release if it is missing and runs `wasm-opt`
over a module. The build's own call into wasm-opt refers to functions that do not exist
and is not modelled. `cargo wasm new` writes a starter project, and the model covers its
`Cargo.toml` rewrite and the `index.html` page text.

The model follows what the tool decides to run. It does not model running it. Every process
the tool would start is recorded as an `Invocation`, which holds the program and its
argument list. A build becomes a trace of events: installs, compiles, removals of the
output directory and glue runs.

- **Imperative code stays imperative.** The loops and the step-by-step building of a
  `Command` are methods over the `Process.Command` class. Each method's contract ties what
  it builds to a specification function or states it pointwise. The functions' properties
  are then proved as lemmas.
- **Pure code becomes functions.** `path_to_cli`, `get_package_name`, `PackageInfo::new`,
  `FromStr`/`AsRef`, `Platform::try_new`, `Display`, the URL format and `make_html` are
  functions with lemmas.

Files:

- `common.dfy`: `Option`/`Result`, an order-preserving `Filter`, subsequences.
- `text.dfy`: the `str` operations the tool relies on:
  - `contains`;
  - `replace`, for a single character and for a pattern;
  - `to_ascii_lowercase`;
  - the lexicographic order of `str`, which is the iteration order of a `BTreeSet`.
- `process.dfy`: `Invocation`, and the `Command` builder class.
- `main.dfy` (module `CargoWasm`): `src/main.rs`.
- `wasm_opt.dfy` (module `WasmOpt`): `src/wasm_opt.rs`.
- `templates.dfy` (module `Templates`): `src/templates.rs`.

Inputs from the environment are parameters:

- the `cargo metadata` result (a `Result<Metadata, string>`);
- the host architecture and OS strings;
- whether the wasm-opt binary already exists;
- the outcome of the download-and-unpack;
- the outcomes of the two file-size reads in `try_run`.

Where the documented intent of the tool and its code differ, the model follows the code:

- **One version for every package.** Every discovered package is tagged with the version of
  the *first* package named `wasm-bindgen` anywhere in the metadata, not with its own
  dependency. So a build never asks for more than one wasm-bindgen-cli version.
- **No `--version` on install.** The install passes no `--version`, so cargo installs its
  latest wasm-bindgen-cli under the version-named root. The install always runs, because
  the existence check is commented out in src/main.rs.
- **No `--package` on compile.** The compile receives the package name but does not pass
  it to cargo. Every compile is the same `cargo build` with cargo's default package
  selection, issued once per discovered package.
- **`--clean` runs per package.** The output directory is removed inside the per-package
  loop, so with several packages each removal deletes the glue already written for the
  packages before it.
- **Every set pass flag is passed.** Every pass flag that is set reaches wasm-opt, in a
  fixed order. There is no "first flag wins".
- **Nothing extra.** There is no download retry and no bootstrap-script emitter.

## Model

A function whose contract lives in lemmas has no row of its own. Its row is the lemma
that states the contract:
- `WasmTarget.FromStr` and `WasmTarget.AsRef`: `FromStrAsRef`, `FromStrIgnoresAsciiCase` and `FromStrRejects`.
- `Platform.TryNew` and `Platform.ToString`: `TryNewResolves`, `DisplayIsOs` and `TryNewToString`.
- `ReleaseUrl`: `ReleaseUrlFormat` and `ReleaseUrlInjective`.
- `Templates.MakeHtml`: the `MakeHtml…` lemmas.
- `RewriteCargoToml`: `RewriteCargoTomlSetsMarker` and `RewriteCargoTomlIdempotent`.
- `Discovered`: `DiscoveredPackages` and `DiscoveredSingleVersion`.
- `GlueArgs`: `GlueArgsLayout` and `GlueReadsCompiledModule`.
- `OptimizerArgs`: `OptimizerArgsLayout` and `DefaultOptimizerArgs`.

| member | source | states |
|---|---|---|
| CargoWasm.PathToCli | src/main.rs:13-18 | the executable is `./target/wasm-bindgen-cli/<v>/bin/wasm-bindgen`; the version's install root is its prefix and `/bin/wasm-bindgen` the rest |
| CargoWasm.PathToCliInjective | src/main.rs:13-18 | distinct versions get distinct executables and distinct install roots (both directions) |
| CargoWasm.PackageInfo.GetPackageName | src/main.rs:88-90 | same length as the name; every `-` becomes `_`, every other character is kept; the result has no `-` |
| Text.ReplaceChar | src/main.rs:89 | single-character `replace`: same length, position by position the replaced or kept character |
| CargoWasm.FindBindgenVersion | src/main.rs:94-103 | `None` exactly when no package is named `wasm-bindgen`; otherwise the version of the first one |
| CargoWasm.PackageInfo.New | src/main.rs:93-108 | `Some` exactly when some metadata package is named `wasm-bindgen`; keeps the given package; the version is that of the first `wasm-bindgen` package |
| CargoWasm.BindgenPackages.New | src/main.rs:184-200 | the loop keeps exactly `Discovered(metadata)` (members in metadata order, each tagged with the first `wasm-bindgen` version); `isWorkspace` is the absence of a root package |
| CargoWasm.DiscoveredPackages | src/main.rs:188-194 | nothing is kept without a `wasm-bindgen`; otherwise exactly the workspace members, as a subsequence of the metadata in its order, and every member is kept |
| CargoWasm.DiscoveredSingleVersion | src/main.rs:93-108 | every kept package carries the first `wasm-bindgen` version; at most one distinct version, exactly one when anything is kept, and then the version set is exactly that version |
| CargoWasm.Cargo.InstallWasmBindgenCli | src/main.rs:27-34 | the install arguments are exactly `install --root ./target/wasm-bindgen-cli/<v> -- wasm-bindgen-cli`, with no `--version` |
| CargoWasm.BindgenPackages.InstallWasmBindgenCli | src/main.rs:212-221 | one install per distinct version of the packages, in strictly ascending string order, each with exactly the install arguments of its version |
| Text.LeastExists | src/main.rs:213-218 | every non-empty set of strings has a least element in `str` order, which is the next one a `BTreeSet` yields |
| Text.LessTotal | src/main.rs:213-218 | the `str` order is total on distinct strings |
| Text.LessTransitive | src/main.rs:213-218 | the `str` order is transitive |
| Text.LessIrreflexive | src/main.rs:213-218 | the `str` order is strict |
| CargoWasm.Cargo.BuildWasm32UnknownUnknown | src/main.rs:36-45 | the compile invocation is the cargo binary with `BuildArgs(release)`; the package name is not passed |
| CargoWasm.BuildArgs | src/main.rs:39-42 | `build --target wasm32-unknown-unknown`, then `--release` exactly when releasing (length 3 or 4); never `--package` |
| CargoWasm.BindgenPackages.BuildWasm32UnknownUnknown | src/main.rs:202-207 | one compile per discovered package, each with the same arguments |
| CargoWasm.GlueReadsCompiledModule | src/main.rs:110-117 | the glue step's first argument is the module the compile step writes: it lies under `./target/<the compile's --target>/`, in `release` exactly when the compile passes `--release` and `debug` otherwise, ends in `.wasm`, and its stem is the package name with `-` turned into `_`, so it holds no `-` |
| CargoWasm.SourceWasmInjective | src/main.rs:112-117 | distinct package names or profiles give distinct modules (both directions) |
| CargoWasm.PackageInfo.BuildWasmJs | src/main.rs:110-164 | the step-by-step command equals `GlueEvents`: an optional removal of the output directory, then the wasm-bindgen run with `GlueArgs`; the output module is `<dir>/<name>_bg.wasm` |
| CargoWasm.AppendGlueSwitches | src/main.rs:128-142 | the chain of four `if`s appends exactly `GlueSwitchArgs(opt)` to the command |
| CargoWasm.AppendGlueSwitch | src/main.rs:128-142 | one `if`: the switch's flag is appended exactly when the options select it |
| CargoWasm.GlueSwitchesSelected | src/main.rs:128-142 | `--no-typescript` is passed iff TypeScript is off; `--weak-refs`, `--reference-types` and `--no-demangle` iff their options are set |
| CargoWasm.GlueSwitchesDistinct | src/main.rs:128-142 | only those four flags appear in the switch part, none twice |
| CargoWasm.GlueArgsLayout | src/main.rs:111-152 | the arguments are the module, `--target` with the target (`web` by default), the switches, then `--out-dir` with the directory (`dist/js` by default); 5 to 9 arguments |
| CargoWasm.BindgenPackages.BuildWasmJs | src/main.rs:223-227 | the loop's glue events are `GluePlan` of the packages, one package after the other |
| CargoWasm.GluePlanCleanShape | src/main.rs:146-151 | with `--clean`, the plan alternates removal of the output directory and the package's glue run, two steps per package |
| CargoWasm.GluePlanCleanAt | src/main.rs:146-152 | with `--clean`, steps `2k` and `2k+1` are the removal and the run of package `k` |
| CargoWasm.GluePlanRunsOnly | src/main.rs:223-227 | without `--clean`, the plan is the glue runs alone, one per package in order |
| CargoWasm.CleanRemovesEarlierGlue | src/main.rs:146-151 | with `--clean` and two packages, the output directory is removed after the first package's glue was generated |
| CargoWasm.Build | src/main.rs:346-356 | the trace begins with one install per distinct version, in strictly ascending order, with exact arguments; the only installs are those; one identical compile per package follows, then exactly `GluePlan`; phases never go backwards; every wasm-bindgen run comes after the install of the version whose executable it runs |
| CargoWasm.GluePlanPrograms | src/main.rs:110-111 | every wasm-bindgen run of a glue plan uses the executable of one of the planned packages' versions |
| CargoWasm.GlueAfterInstall | src/main.rs:346-356 | when the installs come before the glue steps, every run uses the executable of a version installed earlier in the trace |
| CargoWasm.RunBuild | src/main.rs:332-340 | unreadable metadata, no `wasm-bindgen` or no member gives an empty trace; otherwise the trace is the install of the first `wasm-bindgen`'s version, one compile per discovered package, then exactly `GluePlan` of the discovered packages, all run with that version's executable; never more than one install |
| CargoWasm.SingleVersionTrace | src/main.rs:346-356 | a build over packages sharing one version installs it once, first, and runs only its executable |
| CargoWasm.LowercaseNameRoundTrip | src/main.rs:255-263 | the target names are already ASCII lower case |
| CargoWasm.FromStrAsRef | src/main.rs:239-263 | parsing a target's name gives that target back |
| CargoWasm.FromStrIgnoresAsciiCase | src/main.rs:241-244 | parsing yields `t` exactly for the spellings of `t`'s name in any ASCII case (both directions) |
| CargoWasm.FromStrRejects | src/main.rs:247-250 | any other text is an error whose message contains the text |
| Text.ToAsciiLowercase | src/main.rs:242 | same length; position by position the ASCII lower case of the character |
| CargoWasm.DependenciesDeclareCrateType | src/templates.rs:8-13 | the starter dependencies contain `crate-type = ["cdylib", "rlib"]` |
| CargoWasm.RewriteCargoTomlSetsMarker | src/main.rs:59-65 | rewriting a `Cargo.toml` that has `[dependencies]` leaves the guard's marker in it |
| CargoWasm.RewriteCargoTomlIdempotent | src/main.rs:59-65 | rewriting twice gives the same text as rewriting once |
| Text.ReplaceAllWithoutMatch | src/main.rs:62 | `replace` changes nothing where the pattern does not occur |
| Text.ReplaceAllBringsReplacement | src/main.rs:62 | where the pattern occurs, the result contains everything the replacement contains |
| Templates.MakeHtmlFrame | src/templates.rs:28-42 | the page starts with `<!DOCTYPE html>` and ends with `</html>` |
| Templates.MakeHtmlLayout | src/templates.rs:28-42 | the page is the fixed text up to `</body>`, the script block, then the fixed end: the script is the only part that depends on the arguments |
| Templates.MakeHtmlBundlerLoadsScript | src/templates.rs:16-17 | a bundler page contains `<script src="./js/<name>.js"></script>` |
| Templates.MakeHtmlModuleImportsInit | src/templates.rs:18-25 | a non-bundler page contains the module script block whose body is `import init from './js/<name>.js';` then `init();` |
| Templates.BundlerScriptIsNotModuleScript | src/templates.rs:16-25 | a classic script tag never equals a module block |
| Templates.BundlerScriptInjective | src/templates.rs:17 | distinct names give distinct script tags |
| Templates.ModuleScriptInjective | src/templates.rs:19-25 | distinct names give distinct module blocks |
| Templates.MakeHtmlInjective | src/templates.rs:15-43 | two pages are equal exactly when made from the same name and the same bundler choice |
| WasmOpt.TryNewResolves | src/wasm_opt.rs:23-34 | a platform results exactly on `x86_64` with an OS whose name it displays; other architectures get the x86_64-only error whatever the OS; other OSes on x86_64 get "Unsupported platform" |
| WasmOpt.DisplayIsOs | src/wasm_opt.rs:26-28 | a resolved platform displays as the OS string it was resolved from |
| WasmOpt.TryNewToString | src/wasm_opt.rs:37-44 | resolving a platform's displayed name on x86_64 gives the platform back |
| WasmOpt.ReleaseUrlFormat | src/wasm_opt.rs:83-90 | the URL is the download directory of `version_97`, then `binaryen-version_97-x86_64-`, the displayed platform, then `.tar.gz` |
| WasmOpt.ReleaseUrlInjective | src/wasm_opt.rs:83-90 | each platform has its own URL (both directions) |
| WasmOpt.TryInstall | src/wasm_opt.rs:80-103 | an existing binary means `Ok` with no step; a platform error is returned with no step; a resolved platform gives exactly the fetch of its archive into the optimizer directory, with the fetch's outcome; at most one step, and it is a fetch |
| WasmOpt.TryInstallFetchesOnlyWhenNeeded | src/wasm_opt.rs:80-103 | a fetch happens exactly when the binary is missing on x86_64 Linux, macOS or Windows, and fetches that OS's archive into `./target/wasm-opt`; success without a fetch means the binary existed |
| WasmOpt.WasmOpt.OptimizerCommand | src/wasm_opt.rs:110-158 | the step-by-step command is `wasm-opt` at its final path with `OptimizerArgs` |
| WasmOpt.WasmOpt.AppendPasses | src/wasm_opt.rs:126-158 | the passes part appends exactly `PassArgs()` |
| WasmOpt.WasmOpt.AppendNamedPasses | src/wasm_opt.rs:126-154 | the chain of seven `if`s appends the switches of the set named passes in fixed order; `set` is true exactly when any was added |
| WasmOpt.WasmOpt.TestPass | src/wasm_opt.rs:127-130 | one `if`: the pass's switch is appended and `set` raised exactly when its option is set |
| WasmOpt.TestedUpToSelection | src/wasm_opt.rs:126-154 | after `k` tests exactly the set named passes of rank below `k` are chosen, in strictly increasing rank |
| WasmOpt.PassSelection | src/wasm_opt.rs:126-158 | a named pass is given iff its option is set; `-O` iff `O` is set or no named option is; never an empty pass list |
| WasmOpt.NamedPassesEmpty | src/wasm_opt.rs:126-154 | no named pass is added exactly when no named option is set |
| WasmOpt.PassesOrdered | src/wasm_opt.rs:126-158 | passes come in the fixed order O0, O1, O2, O3, O4, Os, Oz, each at most once, with `-O` last |
| WasmOpt.PassArgsSwitches | src/wasm_opt.rs:126-158 | a pass's switch is among the arguments exactly when the pass is given |
| WasmOpt.SwitchInjective | src/wasm_opt.rs:126-158 | distinct passes have distinct switches |
| WasmOpt.SwitchShape | src/wasm_opt.rs:126-158 | every pass switch is `-O` followed by at most one character |
| WasmOpt.OptimizerArgsLayout | src/wasm_opt.rs:116-123 | exactly `3 + (1 if reference types) + |passes|` arguments; they start `wasm, --output, wasm`; `--enable-reference-types` is at index 3 when asked for and appears nowhere after the first three arguments otherwise; the passes end the list |
| WasmOpt.DefaultPassArgs | src/wasm_opt.rs:49 | with `WasmOpt::default()` the pass list is exactly `-O` |
| WasmOpt.DefaultOptimizerArgs | src/wasm_opt.rs:186-193 | with `WasmOpt::default()` and `Opt::default()`, as in the test at src/wasm_opt.rs:184-197, the optimizer arguments are exactly `wasm, --output, wasm, -O` |
| WasmOpt.WasmOpt.TryRun | src/wasm_opt.rs:108-171 | an unreadable module is an error before the optimizer runs; otherwise one optimizer run, ending as the second size read does |
| WasmOpt.WasmOpt.TryInstallAndRun | src/wasm_opt.rs:173-177 | the install's steps come first; an install error is returned with nothing run; after a successful install the run's steps and outcome follow |

## Left out

- Process execution: spawning, waiting, captured output, `expect` panics and log lines (`println!`, `info!`). Only the invocations are recorded.
- `cargo_metadata::MetadataCommand::exec`: the metadata is an input. That input is a `Result`, so the error branch of `CargoWasm::run` is modelled. The metadata itself is the package list (id, name, version), the workspace member ids and the resolve root.
- The network and archive handling of `try_install`: the request, body read, gzip decoding and `tar` unpacking. Their combined outcome is the `fetched` input. The existence check of the wasm-opt binary is the `finalPathExists` input.
- File-system effects:
  - `remove_dir_all` is recorded as an event, and its error is ignored as src/main.rs does.
  - The file-size reads of `try_run` are inputs. The final size read follows the optimizer run, whose own status is not modelled.
  - `new_template_project`'s `cargo new`, its file writes and `create_dir_all` are not modelled. Only its `Cargo.toml` rewrite is (`RewriteCargoToml`), together with the page text (`make_html`).
  - `LIB_RS` and `GITIGNORE` are kept as constants only.
- The floating-point size-reduction figure of `try_run`.
- Concurrency: `CargoWasm::build` runs the installs on a second thread beside the compiles. The model records all installs, then all compiles, then the glue steps. Interleavings are not modelled.
- structopt parsing, `main`, the `CARGO` environment lookup and the `New` subcommand's dispatch.
- `templates/rollup/rollup.config.js`: static bundler configuration with no logic.
- The wasm-opt call inside `build_wasm_js` (src/main.rs:166-171): it calls `WasmOpt::new` and `run`, which src/wasm_opt.rs does not define. `PackageInfo.BuildWasmJs` therefore returns the output module path without using it.
- `is_workspace` is computed but never read by the tool. The model computes it and proves nothing further about it.
- Templates.MakeHtmlBundlerLoadsScript: does not state that a bundler page has no `import init` line. A project name may itself contain that text, so the absence does not hold for every name. The lemma proves the page's layout and the shape of the script tag instead.
- CargoWasm.OutDirOf: pushing the chosen directory onto an empty `PathBuf` is modelled as the directory itself. Path normalisation and non-UTF-8 paths are not modelled.
- WasmOpt.ReleaseUrlFormat: states the URL through the named constants `RELEASES`, `BINDGEN_VERSION` and `ARCH_X86_64`; the fully spelled-out address equals their concatenation but is not stated as a separate literal.
