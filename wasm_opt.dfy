/** The optional wasm-opt post-processing step (src/wasm_opt.rs): resolving the host
    platform, deciding whether the prebuilt binaryen release must be fetched, and the
    command line of the optimizer. The host architecture and OS, whether the optimizer
    is already on disk, and the outcomes of the download and of the file reads are
    parameters. */
module WasmOpt {
  import opened Common
  import opened Process
  import CargoWasm

  /** The pinned binaryen release. */
  const BINDGEN_VERSION: string := "version_97"
  const OUT_DIR: string := "./target/wasm-opt"
  const FINAL_PATH: string := "./target/wasm-opt/binaryen-version_97/bin/wasm-opt"
  const ARCH_X86_64: string := "x86_64"

  const ARCH_ERROR: string := "Prebuilt wasm-opt binaries are only available for x86_64"
  const PLATFORM_ERROR: string := "Unsupported platform"

  /** The operating systems binaryen publishes x86_64 binaries for. */
  datatype Platform = Linux | Windows | MacOS {

    /** `Platform::try_new` for the given `std::env::consts::ARCH` and `OS`. */
    static function TryNew(arch: string, os: string): Result<Platform, string> {
      if arch == ARCH_X86_64 then
        if os == "linux" then Ok(Linux)
        else if os == "macos" then Ok(MacOS)
        else if os == "windows" then Ok(Windows)
        else Err(PLATFORM_ERROR)
      else
        Err(ARCH_ERROR)
    }

    /** `Display for Platform`. */
    function ToString(): string {
      match this
      case Linux => "linux"
      case Windows => "windows"
      case MacOS => "macos"
    }
  }

  /** A platform is resolved exactly on x86_64, for the OS whose name it displays as;
      everywhere else the error names the reason, the architecture taking precedence. */
  lemma TryNewResolves(arch: string, os: string)
    ensures forall p: Platform :: Platform.TryNew(arch, os) == Ok(p) <==> arch == ARCH_X86_64 && os == p.ToString()
    ensures arch != ARCH_X86_64 ==> Platform.TryNew(arch, os) == Err(ARCH_ERROR)
    ensures arch == ARCH_X86_64 && os != "linux" && os != "macos" && os != "windows"
            ==> Platform.TryNew(arch, os) == Err(PLATFORM_ERROR)
  {
    assert |"linux"| == 5 && |"macos"| == 5 && |"windows"| == 7;
    assert "linux"[0] != "macos"[0];
  }

  /** The displayed name of a resolved platform is the OS name it was resolved from. */
  lemma DisplayIsOs(arch: string, os: string)
    requires Platform.TryNew(arch, os).Ok?
    ensures Platform.TryNew(arch, os).value.ToString() == os
  {
    TryNewResolves(arch, os);
  }

  /** Displaying a platform and resolving the name on x86_64 gives the platform back. */
  lemma TryNewToString(p: Platform)
    ensures Platform.TryNew(ARCH_X86_64, p.ToString()) == Ok(p)
  {
    TryNewResolves(ARCH_X86_64, p.ToString());
  }

  /** The release archive for a platform. */
  function ArchiveName(p: Platform): string {
    "binaryen-" + BINDGEN_VERSION + "-" + ARCH_X86_64 + "-" + p.ToString() + ".tar"
  }

  const RELEASES: string := "https://github.com/WebAssembly/binaryen/releases/download/"

  /** The download address of the gzipped release archive for a platform. */
  function ReleaseUrl(p: Platform): string {
    RELEASES + BINDGEN_VERSION + "/" + ArchiveName(p) + ".gz"
  }

  /** Everything of the address before the platform's name: the download directory
      of the pinned release and the archive name up to the architecture. */
  const URL_STEM: string := RELEASES + BINDGEN_VERSION + "/" + "binaryen-" + BINDGEN_VERSION + "-" + ARCH_X86_64 + "-"

  lemma UrlRegroup(dir: string, version: string, stem: string, arch: string, name: string, tar: string, gz: string)
    ensures dir + version + "/" + (stem + version + "-" + arch + "-" + name + tar) + gz
            == (dir + version + "/" + stem + version + "-" + arch + "-") + name + (tar + gz)
  {
  }

  /** The address is the fixed stem, the platform's displayed name and `.tar.gz`. */
  lemma ReleaseUrlFormat(p: Platform)
    ensures ReleaseUrl(p) == URL_STEM + p.ToString() + ".tar.gz"
    ensures ReleaseUrl(p)[..|RELEASES|] == RELEASES
    ensures ReleaseUrl(p)[|URL_STEM|..|URL_STEM| + |p.ToString()|] == p.ToString()
  {
    UrlRegroup(RELEASES, BINDGEN_VERSION, "binaryen-", ARCH_X86_64, p.ToString(), ".tar", ".gz");
    assert ".tar" + ".gz" == ".tar.gz";
    SeqConcatSlices(URL_STEM, p.ToString(), ".tar.gz");
    UrlPrefix(RELEASES, BINDGEN_VERSION, ArchiveName(p));
  }

  lemma UrlPrefix(dir: string, version: string, name: string)
    ensures (dir + version + "/" + name + ".gz")[..|dir|] == dir
  {
    assert dir + version + "/" + name + ".gz" == dir + (version + "/" + name + ".gz");
  }

  /** Each platform is fetched from its own address. */
  lemma ReleaseUrlInjective(p: Platform, q: Platform)
    ensures ReleaseUrl(p) == ReleaseUrl(q) <==> p == q
  {
    ReleaseUrlFormat(p);
    ReleaseUrlFormat(q);
    if ReleaseUrl(p) == ReleaseUrl(q) {
      assert ReleaseUrl(p)[|URL_STEM|] == p.ToString()[0];
      assert ReleaseUrl(q)[|URL_STEM|] == q.ToString()[0];
    }
  }

  /** The effects of installing and running the optimizer: fetching and unpacking a
      release archive, and running the optimizer. */
  datatype Step =
    | Fetch(url: string, unpackInto: string)
    | RunOptimizer(invocation: Invocation)

  /** The steps an operation took, and how it ended. */
  datatype Attempt = Attempt(steps: seq<Step>, outcome: Result<(), string>)

  /** `WasmOpt::try_install`: nothing is done when the optimizer is already on disk;
      otherwise the platform is resolved first, and only a resolved platform leads to
      the download, whose outcome `fetched` stands for the request, the body read and
      the unpacking. */
  function TryInstall(finalPathExists: bool, arch: string, os: string, fetched: Result<(), string>): (r: Attempt)
    ensures finalPathExists ==> r == Attempt([], Ok(()))
    ensures !finalPathExists && Platform.TryNew(arch, os).Err? ==>
            r == Attempt([], Err(Platform.TryNew(arch, os).error))
    ensures !finalPathExists && Platform.TryNew(arch, os).Ok? ==>
            r == Attempt([Fetch(ReleaseUrl(Platform.TryNew(arch, os).value), OUT_DIR)], fetched)
    ensures |r.steps| <= 1
    ensures forall i :: 0 <= i < |r.steps| ==> r.steps[i].Fetch?
  {
    if !finalPathExists then
      match Platform.TryNew(arch, os)
      case Err(e) => Attempt([], Err(e))
      case Ok(platform) => Attempt([Fetch(ReleaseUrl(platform), OUT_DIR)], fetched)
    else
      Attempt([], Ok(()))
  }

  /** A download is attempted exactly when the optimizer is missing and the host is
      x86_64 running one of the three OSes, and then it fetches that OS's archive into
      the optimizer directory; the install succeeds without one only when the optimizer
      is already there. */
  lemma TryInstallFetchesOnlyWhenNeeded(finalPathExists: bool, arch: string, os: string, fetched: Result<(), string>)
    ensures TryInstall(finalPathExists, arch, os, fetched).steps != []
            <==> !finalPathExists && arch == ARCH_X86_64 && (os == "linux" || os == "macos" || os == "windows")
    ensures forall p: Platform :: (TryInstall(finalPathExists, arch, os, fetched).steps != [] && p.ToString() == os
                                   ==> TryInstall(finalPathExists, arch, os, fetched).steps == [Fetch(ReleaseUrl(p), OUT_DIR)])
    ensures TryInstall(finalPathExists, arch, os, fetched).steps == [] && TryInstall(finalPathExists, arch, os, fetched).outcome.Ok?
            ==> finalPathExists
  {
    TryNewResolves(arch, os);
    assert Linux.ToString() == "linux" && MacOS.ToString() == "macos" && Windows.ToString() == "windows";
  }

  /** The optimization passes of binaryen the tool can select; `Default` is the plain
      `-O`. The rank is the position in which a pass is passed. */
  datatype Pass = O0 | O1 | O2 | O3 | O4 | Os | Oz | Default {
    function Switch(): string {
      match this
      case O0 => "-O0"
      case O1 => "-O1"
      case O2 => "-O2"
      case O3 => "-O3"
      case O4 => "-O4"
      case Os => "-Os"
      case Oz => "-Oz"
      case Default => "-O"
    }

    function Rank(): nat {
      match this
      case O0 => 0
      case O1 => 1
      case O2 => 2
      case O3 => 3
      case O4 => 4
      case Os => 5
      case Oz => 6
      case Default => 7
    }
  }

  /** The named passes, by the position in which `try_run` tests them. */
  function PassAt(k: nat): (p: Pass)
    requires k < 7
    ensures p != Default && p.Rank() == k
  {
    match k
    case 0 => O0
    case 1 => O1
    case 2 => O2
    case 3 => O3
    case 4 => O4
    case 5 => Os
    case _ => Oz
  }

  function Switches(passes: seq<Pass>): seq<string> {
    seq(|passes|, i requires 0 <= i < |passes| => passes[i].Switch())
  }

  lemma {:induction false} SwitchesAppend(a: seq<Pass>, b: seq<Pass>)
    ensures Switches(a + b) == Switches(a) + Switches(b)
  {
    forall i | 0 <= i < |a + b| ensures Switches(a + b)[i] == (Switches(a) + Switches(b))[i] {
      if i < |a| {
        assert (a + b)[i] == a[i];
      } else {
        assert (a + b)[i] == b[i - |a|];
      }
    }
  }

  /** Every pass switch is `-O`, followed by at most one character naming the level. */
  lemma SwitchShape(p: Pass)
    ensures 2 <= |p.Switch()| <= 3 && p.Switch()[..2] == "-O"
  {
  }

  /** Distinct passes have distinct switches. */
  lemma SwitchInjective(p: Pass, q: Pass)
    ensures p.Switch() == q.Switch() <==> p == q
  {
    if p.Switch() == q.Switch() && p != Default && q != Default {
      assert p.Switch()[2] == q.Switch()[2];
    }
  }

  /** The pass options of wasm-opt (`struct WasmOpt`). */
  datatype WasmOpt = WasmOpt(o: bool, o0: bool, o1: bool, o2: bool, o3: bool, o4: bool, os: bool, oz: bool) {

    /** The named pass option of `p` is set; `Default` is not a named option. */
    predicate Selects(p: Pass) {
      match p
      case O0 => o0
      case O1 => o1
      case O2 => o2
      case O3 => o3
      case O4 => o4
      case Os => os
      case Oz => oz
      case Default => false
    }

    /** Some named pass option is set. */
    predicate AnyNamed() {
      o0 || o1 || o2 || o3 || o4 || os || oz
    }

    /** The named passes set among the first `k` tested, in the order tested. */
    function TestedUpTo(k: nat): seq<Pass>
      requires k <= 7
    {
      if k == 0 then [] else TestedUpTo(k - 1) + (if Selects(PassAt(k - 1)) then [PassAt(k - 1)] else [])
    }

    /** The named passes set, in the fixed order. */
    function NamedPasses(): seq<Pass> {
      TestedUpTo(7)
    }

    /** The passes given to wasm-opt: the named passes set, then the default pass when
        it was asked for or when no named pass was set. */
    function Passes(): seq<Pass> {
      NamedPasses() + (if o || NamedPasses() == [] then [Default] else [])
    }

    function PassArgs(): seq<string> {
      Switches(Passes())
    }

    /** Testing one more named pass adds it when its option is set. */
    lemma TestNext(k: nat)
      requires k < 7
      ensures TestedUpTo(k + 1) == TestedUpTo(k) + (if Selects(PassAt(k)) then [PassAt(k)] else [])
      ensures Switches(TestedUpTo(k + 1)) == Switches(TestedUpTo(k)) + (if Selects(PassAt(k)) then [PassAt(k).Switch()] else [])
    {
      SwitchesAppend(TestedUpTo(k), if Selects(PassAt(k)) then [PassAt(k)] else []);
    }

    /** One test of the chain: the switch of `p` is added when its option is set. */
    function AfterTest(args: seq<string>, p: Pass): seq<string> {
      args + (if Selects(p) then [p.Switch()] else [])
    }

    /** The arguments after the first `k` tests of the chain, starting from `head`. */
    function ArgsAfterTests(head: seq<string>, k: nat): seq<string>
      requires k <= 7
    {
      if k == 0 then head else AfterTest(ArgsAfterTests(head, k - 1), PassAt(k - 1))
    }

    lemma {:induction false} ArgsAfterTestsAppend(head: seq<string>, k: nat)
      requires k <= 7
      ensures ArgsAfterTests(head, k) == head + Switches(TestedUpTo(k))
    {
      if k > 0 {
        ArgsAfterTestsAppend(head, k - 1);
        TestNext(k - 1);
      }
    }

    /** `try_run` without the file reads: the optimizer rewrites the module in place,
        enabling reference types when the glue was built with them, with the selected
        passes. */
    method OptimizerCommand(wasm: string, opt: CargoWasm.Opt) returns (inv: Invocation)
      ensures inv == Invocation(FINAL_PATH, OptimizerArgs(this, wasm, opt))
    {
      var cmd := new Command(FINAL_PATH);
      cmd.Arg(wasm);
      cmd.Args(["--output", wasm]);
      if opt.referenceTypes {
        cmd.Arg("--enable-reference-types");
      }
      ghost var options := cmd.arguments;
      AppendPasses(cmd);
      SeqAppendAssoc(options[..3], options[3..], PassArgs());
      assert options[..3] + options[3..] == options;
      inv := cmd.Snapshot();
    }

    /** The passes part of `try_run`: the named passes set, then `-O` when the default
        pass was asked for or no named pass was set. */
    method AppendPasses(cmd: Command)
      modifies cmd
      ensures cmd.arguments == old(cmd.arguments) + PassArgs()
    {
      ghost var options := cmd.arguments;
      var anySet := AppendNamedPasses(cmd);
      ghost var named := cmd.arguments;
      ghost var default := if o || !anySet then [Default] else [];
      if o || !anySet {
        cmd.Arg("-O");
      }
      assert cmd.arguments == named + Switches(default);
      SwitchesAppend(NamedPasses(), default);
      SeqAppendAssoc(options, Switches(NamedPasses()), Switches(default));
    }

    /** The chain of `if`s of `try_run` over the named passes: each one set is added
        in the fixed order, and the result tells whether any was. */
    method AppendNamedPasses(cmd: Command) returns (anySet: bool)
      modifies cmd
      ensures cmd.arguments == old(cmd.arguments) + Switches(NamedPasses())
      ensures anySet == (NamedPasses() != [])
    {
      ghost var head := cmd.arguments;
      anySet := false;
      anySet := TestPass(cmd, O0, anySet);
      assert cmd.arguments == ArgsAfterTests(head, 1);
      anySet := TestPass(cmd, O1, anySet);
      assert cmd.arguments == ArgsAfterTests(head, 2);
      anySet := TestPass(cmd, O2, anySet);
      assert cmd.arguments == ArgsAfterTests(head, 3);
      anySet := TestPass(cmd, O3, anySet);
      assert cmd.arguments == ArgsAfterTests(head, 4);
      anySet := TestPass(cmd, O4, anySet);
      assert cmd.arguments == ArgsAfterTests(head, 5);
      anySet := TestPass(cmd, Os, anySet);
      assert cmd.arguments == ArgsAfterTests(head, 6);
      anySet := TestPass(cmd, Oz, anySet);
      assert cmd.arguments == ArgsAfterTests(head, 7);
      ArgsAfterTestsAppend(head, 7);
      NamedPassesEmpty(this);
    }

    /** One `if` of the chain: when the option of `p` is set, its switch is added and
        the flag recording that some pass was set is raised. */
    method TestPass(cmd: Command, p: Pass, anySet: bool) returns (nowSet: bool)
      modifies cmd
      ensures cmd.arguments == AfterTest(old(cmd.arguments), p)
      ensures nowSet == (anySet || Selects(p))
    {
      nowSet := anySet;
      if Selects(p) {
        cmd.Arg(p.Switch());
        nowSet := true;
      }
    }

    /** `WasmOpt::try_run`: the module must be readable before the optimizer runs;
        `sourceRead` is the outcome of opening it and reading its size, `resultRead`
        that of reading its size again afterwards. */
    method TryRun(wasm: string, opt: CargoWasm.Opt, sourceRead: Result<(), string>, resultRead: Result<(), string>)
      returns (r: Attempt)
      ensures sourceRead.Err? ==> r == Attempt([], sourceRead)
      ensures sourceRead.Ok? ==> r == Attempt([RunOptimizer(Invocation(FINAL_PATH, OptimizerArgs(this, wasm, opt)))], resultRead)
    {
      if sourceRead.Err? {
        return Attempt([], Err(sourceRead.error));
      }
      var inv := OptimizerCommand(wasm, opt);
      r := Attempt([RunOptimizer(inv)], resultRead);
    }

    /** `WasmOpt::try_install_and_run`: installs first, and runs only after an install
        that succeeded. */
    method TryInstallAndRun(pathToWasm: string, opt: CargoWasm.Opt, env: Environment) returns (r: Attempt)
      ensures var install := TryInstall(env.finalPathExists, env.arch, env.os, env.fetched);
              && |install.steps| <= |r.steps|
              && r.steps[..|install.steps|] == install.steps
              && (install.outcome.Err? ==> r == install)
              && (install.outcome.Ok? ==>
                    r.steps[|install.steps|..] == TryRunSteps(this, pathToWasm, opt, env.sourceRead)
                    && r.outcome == (if env.sourceRead.Err? then env.sourceRead else env.resultRead))
    {
      var install := TryInstall(env.finalPathExists, env.arch, env.os, env.fetched);
      if install.outcome.Err? {
        return install;
      }
      var run := TryRun(pathToWasm, opt, env.sourceRead, env.resultRead);
      r := Attempt(install.steps + run.steps, run.outcome);
      assert r.steps[..|install.steps|] == install.steps;
      assert r.steps[|install.steps|..] == run.steps;
    }
  }

  /** What the host provides to the install and the run. */
  datatype Environment = Environment(
    finalPathExists: bool,
    arch: string,
    os: string,
    fetched: Result<(), string>,
    sourceRead: Result<(), string>,
    resultRead: Result<(), string>)

  /** The arguments of the optimizer: the module, `--output` to the same module,
      reference types when enabled, then the passes. */
  function OptimizerArgs(w: WasmOpt, wasm: string, opt: CargoWasm.Opt): seq<string> {
    [wasm, "--output", wasm] + (if opt.referenceTypes then ["--enable-reference-types"] else []) + w.PassArgs()
  }

  function TryRunSteps(w: WasmOpt, wasm: string, opt: CargoWasm.Opt, sourceRead: Result<(), string>): seq<Step> {
    if sourceRead.Err? then [] else [RunOptimizer(Invocation(FINAL_PATH, OptimizerArgs(w, wasm, opt)))]
  }

  /** After testing the first `k` named passes, exactly the set ones among them are
      chosen, in strictly increasing rank. */
  lemma {:induction false} TestedUpToSelection(w: WasmOpt, k: nat)
    requires k <= 7
    ensures forall p: Pass :: p in w.TestedUpTo(k) <==> p != Default && p.Rank() < k && w.Selects(p)
    ensures forall i, j :: 0 <= i < j < |w.TestedUpTo(k)| ==> w.TestedUpTo(k)[i].Rank() < w.TestedUpTo(k)[j].Rank()
    ensures forall i :: 0 <= i < |w.TestedUpTo(k)| ==> w.TestedUpTo(k)[i].Rank() < k
  {
    if k > 0 {
      TestedUpToSelection(w, k - 1);
      forall p: Pass | p != Default && p.Rank() == k - 1 ensures p == PassAt(k - 1) {
      }
    }
  }

  /** A named pass is given exactly when its option is set; the default pass exactly
      when it was asked for or no named pass is set. So at least one pass is always
      given, and several can be given together. */
  lemma PassSelection(w: WasmOpt)
    ensures forall p: Pass :: p != Default ==> (p in w.Passes() <==> w.Selects(p))
    ensures Default in w.Passes() <==> w.o || !w.AnyNamed()
    ensures |w.PassArgs()| >= 1
  {
    TestedUpToSelection(w, 7);
    NamedPassesEmpty(w);
  }

  lemma NamedPassesEmpty(w: WasmOpt)
    ensures w.NamedPasses() == [] <==> !w.AnyNamed()
  {
    assert |w.TestedUpTo(1)| == 0 <==> !w.o0;
    assert |w.TestedUpTo(2)| == 0 <==> !(w.o0 || w.o1);
    assert |w.TestedUpTo(3)| == 0 <==> !(w.o0 || w.o1 || w.o2);
    assert |w.TestedUpTo(4)| == 0 <==> !(w.o0 || w.o1 || w.o2 || w.o3);
    assert |w.TestedUpTo(5)| == 0 <==> !(w.o0 || w.o1 || w.o2 || w.o3 || w.o4);
    assert |w.TestedUpTo(6)| == 0 <==> !(w.o0 || w.o1 || w.o2 || w.o3 || w.o4 || w.os);
    assert |w.TestedUpTo(7)| == 0 <==> !w.AnyNamed();
  }

  /** The passes come in strictly increasing rank: the fixed order O0, O1, O2, O3, O4,
      Os, Oz, then `-O` last, each at most once. */
  lemma PassesOrdered(w: WasmOpt)
    ensures forall i, j :: 0 <= i < j < |w.Passes()| ==> w.Passes()[i].Rank() < w.Passes()[j].Rank()
    ensures Default in w.Passes() ==> w.Passes()[|w.Passes()| - 1] == Default
  {
    TestedUpToSelection(w, 7);
  }

  /** A pass's switch is among the pass arguments exactly when the pass is given. */
  lemma PassArgsSwitches(w: WasmOpt)
    ensures forall p: Pass :: p.Switch() in w.PassArgs() <==> p in w.Passes()
  {
    forall p: Pass | p.Switch() in w.PassArgs() ensures p in w.Passes() {
      var i :| 0 <= i < |w.PassArgs()| && w.PassArgs()[i] == p.Switch();
      SwitchInjective(p, w.Passes()[i]);
    }
    forall p: Pass | p in w.Passes() ensures p.Switch() in w.PassArgs() {
      var i :| 0 <= i < |w.Passes()| && w.Passes()[i] == p;
      assert w.PassArgs()[i] == p.Switch();
    }
  }

  /** The optimizer's arguments start with the module and its output, then enable
      reference types exactly when asked for, then give the passes. */
  lemma OptimizerArgsLayout(w: WasmOpt, wasm: string, opt: CargoWasm.Opt)
    ensures |OptimizerArgs(w, wasm, opt)| == 3 + (if opt.referenceTypes then 1 else 0) + |w.PassArgs()|
    ensures OptimizerArgs(w, wasm, opt)[..3] == [wasm, "--output", wasm]
    ensures opt.referenceTypes ==> OptimizerArgs(w, wasm, opt)[3] == "--enable-reference-types"
    ensures ("--enable-reference-types" in OptimizerArgs(w, wasm, opt)[3..]) <==> opt.referenceTypes
    ensures OptimizerArgs(w, wasm, opt)[|OptimizerArgs(w, wasm, opt)| - |w.PassArgs()|..] == w.PassArgs()
  {
    var extra := if opt.referenceTypes then ["--enable-reference-types"] else [];
    SeqConcatSlices([wasm, "--output", wasm], extra, w.PassArgs());
    assert OptimizerArgs(w, wasm, opt)[3..] == extra + w.PassArgs();
    forall i | 0 <= i < |w.PassArgs()| ensures w.PassArgs()[i] != "--enable-reference-types" {
      SwitchShape(w.Passes()[i]);
    }
  }

  /** With no pass option set, which is `WasmOpt::default()`, the only pass is `-O`. */
  lemma DefaultPassArgs()
    ensures WasmOpt(false, false, false, false, false, false, false, false).PassArgs() == ["-O"]
  {
    var w := WasmOpt(false, false, false, false, false, false, false, false);
    assert w.NamedPasses() == [];
  }

  /** The test in src/wasm_opt.rs:184-197: with `WasmOpt::default()` and `Opt::default()`
      the optimizer rewrites the module in place with `-O` and nothing else. */
  lemma DefaultOptimizerArgs(wasm: string)
    ensures OptimizerArgs(WasmOpt(false, false, false, false, false, false, false, false), wasm, CargoWasm.DEFAULT_OPT)
            == [wasm, "--output", wasm, "-O"]
  {
    DefaultPassArgs();
  }
}
