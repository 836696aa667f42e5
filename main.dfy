/** The build driver of `cargo wasm` (src/main.rs): which packages need glue code,
    which wasm-bindgen-cli versions to install, and the command lines of the install,
    compile and glue-generation steps, in the order a build issues them. Processes
    are not run: each step is recorded in a trace as the invocation it makes. */
module CargoWasm {
  import opened Common
  import opened Text
  import opened Process
  import Templates

  const WASM32_UNKNOWN_UNKNOWN: string := "wasm32-unknown-unknown"
  const WASM_BINDGEN: string := "wasm-bindgen"
  const WASM_BINDGEN_CLI: string := "wasm-bindgen-cli"
  const OUT_DIR: string := "dist/js"

  /** The root that `cargo install --root` fills for one wasm-bindgen-cli version. */
  function InstallRoot(wasmBindgenVersion: string): string {
    "./target/" + WASM_BINDGEN_CLI + "/" + wasmBindgenVersion
  }

  /** `path_to_cli`: the wasm-bindgen executable of one installed version, which
      lies in the `bin` directory of that version's install root. */
  function PathToCli(wasmBindgenVersion: string): (r: string)
    ensures r == "./target/wasm-bindgen-cli/" + wasmBindgenVersion + "/bin/wasm-bindgen"
    ensures r[..|InstallRoot(wasmBindgenVersion)|] == InstallRoot(wasmBindgenVersion)
    ensures r[|InstallRoot(wasmBindgenVersion)|..] == "/bin/" + WASM_BINDGEN
  {
    "./target/" + WASM_BINDGEN_CLI + "/" + wasmBindgenVersion + "/bin/" + WASM_BINDGEN
  }

  /** Distinct versions get distinct executables (and distinct install roots). */
  lemma PathToCliInjective(v1: string, v2: string)
    ensures PathToCli(v1) == PathToCli(v2) <==> v1 == v2
    ensures InstallRoot(v1) == InstallRoot(v2) <==> v1 == v2
  {
    SeqConcatSlices("./target/wasm-bindgen-cli/", v1, "/bin/wasm-bindgen");
    SeqConcatSlices("./target/wasm-bindgen-cli/", v2, "/bin/wasm-bindgen");
    SeqConcatSlices("./target/wasm-bindgen-cli/", v1, []);
    SeqConcatSlices("./target/wasm-bindgen-cli/", v2, []);
  }

  // ---------------------------------------------------------------------------
  // Command-line options

  /** The output module style of the glue code (`--target`). */
  datatype WasmTarget = Web | Bundler {

    /** `AsRef<str>`. */
    function AsRef(): string {
      match this
      case Web => "web"
      case Bundler => "bundler"
    }

    /** `FromStr`: accepts the two names in any ASCII case; any other text is
        refused with a message that quotes it. */
    static function FromStr(s: string): Result<WasmTarget, string> {
      var lower := ToAsciiLowercase(s);
      if lower == "web" then Ok(Web)
      else if lower == "bundler" then Ok(Bundler)
      else Err(TargetError(s))
    }
  }

  function TargetError(s: string): string {
    "'" + s + "' is not an allowed target. Supported options are: web (default), bundler"
  }

  /** A lower-case name is its own ASCII lower case. */
  lemma LowercaseNameRoundTrip(t: WasmTarget)
    ensures ToAsciiLowercase(t.AsRef()) == t.AsRef()
  {
    var name := t.AsRef();
    var lower := ToAsciiLowercase(name);
    assert forall i :: 0 <= i < |name| ==> 'a' <= name[i] <= 'z';
    assert forall i :: 0 <= i < |name| ==> lower[i] == name[i];
  }

  /** Printing a target and parsing the text again gives the target back. */
  lemma FromStrAsRef(t: WasmTarget)
    ensures WasmTarget.FromStr(t.AsRef()) == Ok(t)
  {
    LowercaseNameRoundTrip(t);
  }

  /** Parsing succeeds with `t` exactly for the spellings of `t`'s name in any ASCII case. */
  lemma FromStrIgnoresAsciiCase(s: string, t: WasmTarget)
    ensures WasmTarget.FromStr(s) == Ok(t) <==> EqIgnoreAsciiCase(s, t.AsRef())
  {
    LowercaseNameRoundTrip(t);
    var lower := ToAsciiLowercase(s);
    if EqIgnoreAsciiCase(s, t.AsRef()) {
      assert forall i :: 0 <= i < |s| ==> lower[i] == ToAsciiLowercase(t.AsRef())[i];
      assert lower == t.AsRef();
    }
    if lower == t.AsRef() {
      assert forall i :: 0 <= i < |s| ==> LowerChar(s[i]) == LowerChar(t.AsRef()[i]) by {
        forall i | 0 <= i < |s| ensures LowerChar(s[i]) == LowerChar(t.AsRef()[i]) {
          assert LowerChar(t.AsRef()[i]) == ToAsciiLowercase(t.AsRef())[i];
        }
      }
    }
    assert Web.AsRef() != Bundler.AsRef();
  }

  /** Any text that is not a spelling of a target name is refused, and the message
      names the text. */
  lemma FromStrRejects(s: string)
    requires !EqIgnoreAsciiCase(s, "web") && !EqIgnoreAsciiCase(s, "bundler")
    ensures WasmTarget.FromStr(s).Err?
    ensures Contains(WasmTarget.FromStr(s).error, s)
  {
    FromStrIgnoresAsciiCase(s, Web);
    FromStrIgnoresAsciiCase(s, Bundler);
    ContainsMiddle("'", s, "' is not an allowed target. Supported options are: web (default), bundler");
  }

  /** The options of `cargo wasm build`. */
  datatype Opt = Opt(
    release: bool,
    typescript: bool,
    target: Option<WasmTarget>,
    outDir: Option<string>,
    clean: bool,
    weakRefs: bool,
    referenceTypes: bool,
    noDemangle: bool,
    wasmOpt: bool)

  /** `Opt::default()`: every flag off and no target or output directory chosen. */
  const DEFAULT_OPT: Opt := Opt(false, false, None, None, false, false, false, false, false)

  /** The glue target actually passed: web unless another one was chosen. */
  function TargetName(opt: Opt): string {
    match opt.target
    case None => "web"
    case Some(t) => t.AsRef()
  }

  /** The output directory: `dist/js` unless another one was chosen. Pushing a relative
      or absolute path onto an empty `PathBuf` yields that path unchanged. */
  function OutDirOf(opt: Opt): string {
    match opt.outDir
    case None => OUT_DIR
    case Some(d) => d
  }

  // ---------------------------------------------------------------------------
  // Project metadata and package discovery

  /** A package of the project metadata: its id, its name and its version. */
  datatype Package = Package(id: string, name: string, version: string)

  /** The part of `cargo metadata` the tool reads: every package of the dependency
      graph in metadata order, the ids of the workspace members and the id of the
      resolved root package, if any. */
  datatype Metadata = Metadata(
    packages: seq<Package>,
    workspaceMembers: seq<string>,
    resolveRoot: Option<string>)

  /** Index `i` holds the first package named `wasm-bindgen`. */
  predicate FirstBindgenAt(packages: seq<Package>, i: int) {
    0 <= i < |packages| && packages[i].name == WASM_BINDGEN
    && forall j :: 0 <= j < i ==> packages[j].name != WASM_BINDGEN
  }

  /** The `find_map` of `PackageInfo::new`: the version of the first package named
      `wasm-bindgen` anywhere in the metadata. */
  function FindBindgenVersion(packages: seq<Package>): (r: Option<string>)
    ensures r.None? <==> forall i :: 0 <= i < |packages| ==> packages[i].name != WASM_BINDGEN
    ensures r.Some? ==> exists i :: FirstBindgenAt(packages, i) && packages[i].version == r.value
  {
    if packages == [] then None
    else if packages[0].name == WASM_BINDGEN then
      assert FirstBindgenAt(packages, 0);
      Some(packages[0].version)
    else
      var rest := FindBindgenVersion(packages[1..]);
      if rest.Some? then
        var i :| FirstBindgenAt(packages[1..], i) && packages[1..][i].version == rest.value;
        assert FirstBindgenAt(packages, i + 1);
        rest
      else
        rest
  }

  /** A package that needs glue code, with the wasm-bindgen version used for it. */
  datatype PackageInfo = PackageInfo(package: Package, wasmBindgenVersion: string) {

    /** `get_package_name`: the package name with every `-` turned into `_`, the
        file stem of its compiled `.wasm`. */
    function GetPackageName(): (r: string)
      ensures |r| == |package.name|
      ensures forall i :: 0 <= i < |r| ==> r[i] == if package.name[i] == '-' then '_' else package.name[i]
      ensures '-' !in r
    {
      ReplaceChar(package.name, '-', '_')
    }

    /** `PackageInfo::new`: a package gets glue code when some package of the metadata
        is named `wasm-bindgen`; its own dependencies are not consulted, and it takes
        the version of the first such package. */
    static function New(metadata: Metadata, package: Package): (r: Option<PackageInfo>)
      ensures r.Some? <==> exists i :: 0 <= i < |metadata.packages| && metadata.packages[i].name == WASM_BINDGEN
      ensures r.Some? ==> r.value.package == package
      ensures r.Some? ==> exists i :: FirstBindgenAt(metadata.packages, i)
                                     && metadata.packages[i].version == r.value.wasmBindgenVersion
    {
      match FindBindgenVersion(metadata.packages)
      case None => None
      case Some(v) => Some(PackageInfo(package, v))
    }

    /** `PackageInfo::build_wasm_js` without the wasm-opt call: builds the wasm-bindgen
        command step by step, cleans the output directory first when asked, and
        names the generated `_bg.wasm`. */
    method BuildWasmJs(opt: Opt) returns (events: seq<Event>, outputWasm: string)
      ensures events == GlueEvents(this, opt)
      ensures outputWasm == OutDirOf(opt) + "/" + GetPackageName() + "_bg.wasm"
    {
      var cmd := new Command(PathToCli(wasmBindgenVersion));
      var sourceWasm := SourceWasm(GetPackageName(), opt.release);
      cmd.Arg(sourceWasm);
      var target := TargetName(opt);
      cmd.Args(["--target", target]);
      AppendGlueSwitches(cmd, opt);
      var outDir := OutDirOf(opt);
      events := [];
      if opt.clean {
        events := [RemoveDirAll(outDir)];
      }
      cmd.Args(["--out-dir", outDir]);
      assert cmd.arguments == GlueArgs(this, opt);
      events := events + [Glue(cmd.Snapshot())];
      outputWasm := outDir + "/" + GetPackageName() + "_bg.wasm";
    }
  }

  /** The chain of `if`s of `build_wasm_js` that adds the wasm-bindgen switches. */
  method AppendGlueSwitches(cmd: Command, opt: Opt)
    modifies cmd
    ensures cmd.arguments == old(cmd.arguments) + GlueSwitchArgs(opt)
  {
    ghost var head := cmd.arguments;
    AppendGlueSwitch(cmd, NoTypescript, opt);
    AppendGlueSwitch(cmd, WeakRefs, opt);
    AppendGlueSwitch(cmd, ReferenceTypes, opt);
    AppendGlueSwitch(cmd, NoDemangle, opt);
    ghost var a, b, c, d := SwitchArg(NoTypescript, opt), SwitchArg(WeakRefs, opt),
                            SwitchArg(ReferenceTypes, opt), SwitchArg(NoDemangle, opt);
    SeqAppendAssoc(head, a, b);
    SeqAppendAssoc(head, a + b, c);
    SeqAppendAssoc(head, a + b + c, d);
  }

  /** One `if` of the chain: the flag of `s` is added when the options select it. */
  method AppendGlueSwitch(cmd: Command, s: GlueSwitch, opt: Opt)
    modifies cmd
    ensures cmd.arguments == old(cmd.arguments) + SwitchArg(s, opt)
  {
    if s.SelectedBy(opt) {
      cmd.Arg(s.Flag());
    }
  }

  /** The package is a member of the workspace. */
  predicate IsMember(metadata: Metadata, package: Package) {
    package.id in metadata.workspaceMembers
  }

  function MemberTest(metadata: Metadata): Package -> bool {
    (p: Package) => IsMember(metadata, p)
  }

  /** The workspace members among the metadata packages, in metadata order. */
  function Members(metadata: Metadata): seq<Package> {
    Filter(metadata.packages, MemberTest(metadata))
  }

  /** Every package paired with the same version. */
  function Tagged(packages: seq<Package>, version: string): (r: seq<PackageInfo>)
    ensures |r| == |packages|
    ensures forall i :: 0 <= i < |r| ==> r[i] == PackageInfo(packages[i], version)
  {
    if packages == [] then [] else [PackageInfo(packages[0], version)] + Tagged(packages[1..], version)
  }

  lemma TaggedSnoc(packages: seq<Package>, p: Package, version: string)
    ensures Tagged(packages + [p], version) == Tagged(packages, version) + [PackageInfo(p, version)]
  {
  }

  /** What discovery yields, stated as a whole: no package at all when the metadata
      has no `wasm-bindgen`, otherwise every workspace member, in metadata order,
      tagged with the version of the first `wasm-bindgen`. */
  function Discovered(metadata: Metadata): seq<PackageInfo> {
    match FindBindgenVersion(metadata.packages)
    case None => []
    case Some(v) => Tagged(Members(metadata), v)
  }

  /** The packages of a list of package infos. */
  function PackagesOf(infos: seq<PackageInfo>): seq<Package> {
    seq(|infos|, i requires 0 <= i < |infos| => infos[i].package)
  }

  /** The distinct wasm-bindgen versions a list of packages asks for (the `BTreeSet`). */
  function VersionSet(infos: seq<PackageInfo>): set<string> {
    set i | 0 <= i < |infos| :: infos[i].wasmBindgenVersion
  }

  /** Discovery keeps exactly the workspace members, in metadata order, when some
      package is named `wasm-bindgen`, and keeps nothing otherwise. */
  lemma DiscoveredPackages(metadata: Metadata)
    ensures (forall i :: 0 <= i < |metadata.packages| ==> metadata.packages[i].name != WASM_BINDGEN)
            ==> Discovered(metadata) == []
    ensures FindBindgenVersion(metadata.packages).Some? ==>
            PackagesOf(Discovered(metadata)) == Members(metadata)
            && IsSubsequence(PackagesOf(Discovered(metadata)), metadata.packages)
    ensures forall i :: 0 <= i < |Discovered(metadata)| ==>
            Discovered(metadata)[i].package in metadata.packages
            && IsMember(metadata, Discovered(metadata)[i].package)
    ensures FindBindgenVersion(metadata.packages).Some? ==>
            forall i :: 0 <= i < |metadata.packages| && IsMember(metadata, metadata.packages[i]) ==>
            metadata.packages[i] in PackagesOf(Discovered(metadata))
  {
    FilterIsSubsequence(metadata.packages, MemberTest(metadata));
    if FindBindgenVersion(metadata.packages).Some? {
      assert PackagesOf(Discovered(metadata)) == Members(metadata);
    }
  }

  /** Every discovered package carries the version of the first `wasm-bindgen` of the
      metadata, so a discovery never asks for more than one wasm-bindgen-cli version. */
  lemma DiscoveredSingleVersion(metadata: Metadata)
    ensures forall i :: 0 <= i < |Discovered(metadata)| ==>
            exists k :: FirstBindgenAt(metadata.packages, k)
                        && metadata.packages[k].version == Discovered(metadata)[i].wasmBindgenVersion
    ensures |VersionSet(Discovered(metadata))| <= 1
    ensures |VersionSet(Discovered(metadata))| == 1 <==> Discovered(metadata) != []
    ensures FindBindgenVersion(metadata.packages).Some? && Discovered(metadata) != [] ==>
            VersionSet(Discovered(metadata)) == {FindBindgenVersion(metadata.packages).value}
  {
    var d := Discovered(metadata);
    if d != [] {
      var v := FindBindgenVersion(metadata.packages).value;
      assert VersionSet(d) == {v} by {
        assert d[0].wasmBindgenVersion == v;
      }
    } else {
      assert VersionSet(d) == {};
    }
  }

  /** The root package of the metadata, if the resolve graph has one. */
  function RootPackage(metadata: Metadata): Option<Package> {
    match metadata.resolveRoot
    case None => None
    case Some(root) => FindPackage(metadata.packages, root)
  }

  function FindPackage(packages: seq<Package>, id: string): Option<Package> {
    if packages == [] then None
    else if packages[0].id == id then Some(packages[0])
    else FindPackage(packages[1..], id)
  }

  /** The cargo binary the tool was started from (`$CARGO`). */
  datatype Cargo = Cargo(path: string) {

    /** `Cargo::install_wasm_bindgen_cli`: installs wasm-bindgen-cli into the version's
        root. No version is passed, so cargo installs its latest release there. */
    method InstallWasmBindgenCli(wasmBindgenVersion: string) returns (inv: Invocation)
      ensures inv == Invocation(path, ["install", "--root", InstallRoot(wasmBindgenVersion), "--", WASM_BINDGEN_CLI])
      ensures "--version" !in inv.args
    {
      var root := "./target/" + WASM_BINDGEN_CLI + "/" + wasmBindgenVersion;
      var cmd := new Command(path);
      cmd.Args(["install", "--root", root, "--", WASM_BINDGEN_CLI]);
      inv := cmd.Snapshot();
      assert root[0] == '.';
    }

    /** `Cargo::build_wasm32_unkwown_unknown`: the package name is received but not
        passed on, so each call is the same build of cargo's default package selection. */
    method BuildWasm32UnknownUnknown(packageName: string, opt: Opt) returns (inv: Invocation)
      ensures inv == Invocation(path, BuildArgs(opt.release))
    {
      var cmd := new Command(path);
      cmd.Args(["build", "--target", WASM32_UNKNOWN_UNKNOWN]);
      if opt.release {
        cmd.Arg("--release");
      }
      inv := cmd.Snapshot();
    }
  }

  /** The arguments of the wasm32 compile: the target, and `--release` exactly when
      compiling in release mode. They name no package. */
  function BuildArgs(release: bool): (r: seq<string>)
    ensures |r| == if release then 4 else 3
    ensures r[..3] == ["build", "--target", WASM32_UNKNOWN_UNKNOWN]
    ensures "--release" in r <==> release
    ensures "--package" !in r
  {
    ["build", "--target", WASM32_UNKNOWN_UNKNOWN] + if release then ["--release"] else []
  }

  /** The discovered packages, the cargo binary, and whether the project is a
      workspace without a root package. */
  datatype BindgenPackages = BindgenPackages(packages: seq<PackageInfo>, cargo: Cargo, isWorkspace: bool) {

    /** `BindgenPackages::new` on metadata already obtained: walks the metadata
        packages, keeping each workspace member for which `PackageInfo::new` succeeds. */
    static method New(cargo: Cargo, metadata: Metadata) returns (bp: BindgenPackages)
      ensures bp.packages == Discovered(metadata)
      ensures bp.cargo == cargo
      ensures bp.isWorkspace == RootPackage(metadata).None?
    {
      var keep := MemberTest(metadata);
      ghost var found := FindBindgenVersion(metadata.packages);
      var packages: seq<PackageInfo> := [];
      for k := 0 to |metadata.packages|
        invariant found.None? ==> packages == []
        invariant found.Some? ==> packages == Tagged(Filter(metadata.packages[..k], keep), found.value)
      {
        var package := metadata.packages[k];
        if package.id in metadata.workspaceMembers {
          var p := PackageInfo.New(metadata, package);
          if p.Some? {
            assert p.value == PackageInfo(package, found.value);
            TaggedSnoc(Filter(metadata.packages[..k], keep), package, found.value);
            packages := packages + [p.value];
          }
        }
        FilterSnoc(metadata.packages[..k], package, keep);
        assert metadata.packages[..k + 1] == metadata.packages[..k] + [package];
      }
      assert metadata.packages[..|metadata.packages|] == metadata.packages;
      bp := BindgenPackages(packages, cargo, RootPackage(metadata).None?);
    }

    /** `BindgenPackages::build_wasm32_unkwown_unknown`: one compile per package, all
        with the same arguments. */
    method BuildWasm32UnknownUnknown(opt: Opt) returns (events: seq<Event>)
      ensures |events| == |packages|
      ensures forall i :: 0 <= i < |events| ==> events[i] == Compile(Invocation(cargo.path, BuildArgs(opt.release)))
    {
      events := [];
      for k := 0 to |packages|
        invariant |events| == k
        invariant forall i :: 0 <= i < k ==> events[i] == Compile(Invocation(cargo.path, BuildArgs(opt.release)))
      {
        var inv := cargo.BuildWasm32UnknownUnknown(packages[k].GetPackageName(), opt);
        events := events + [Compile(inv)];
      }
    }

    /** `BindgenPackages::install_wasm_bindgen_cli`: collects the versions into an
        ordered set and installs each one once, in ascending order. */
    method InstallWasmBindgenCli() returns (versions: seq<string>, events: seq<Event>)
      ensures forall v :: v in versions <==> v in VersionSet(packages)
      ensures forall i, j :: 0 <= i < j < |versions| ==> Less(versions[i], versions[j])
      ensures |versions| == |VersionSet(packages)|
      ensures |events| == |versions|
      ensures forall i :: 0 <= i < |events| ==>
              events[i] == InstallStep(cargo, versions[i])
    {
      var all := VersionSet(packages);
      var remaining := all;
      versions, events := [], [];
      while remaining != {}
        invariant remaining <= all
        invariant forall v :: v in versions <==> v in all && v !in remaining
        invariant forall i, j :: 0 <= i < j < |versions| ==> Less(versions[i], versions[j])
        invariant forall i, x :: 0 <= i < |versions| && x in remaining ==> Less(versions[i], x)
        invariant |versions| == |all| - |remaining|
        invariant |events| == |versions|
        invariant forall i :: 0 <= i < |events| ==>
                  events[i] == InstallStep(cargo, versions[i])
        decreases |remaining|
      {
        LeastExists(remaining);
        var v :| v in remaining && IsLeast(v, remaining);
        var inv := cargo.InstallWasmBindgenCli(v);
        assert Install(inv) == InstallStep(cargo, v);
        events := events + [Install(inv)];
        versions := versions + [v];
        remaining := remaining - {v};
      }
    }

    /** `BindgenPackages::build_wasm_js`: the glue steps of every package, in order. */
    method BuildWasmJs(opt: Opt) returns (events: seq<Event>)
      ensures events == GluePlan(packages, opt)
    {
      events := [];
      for k := 0 to |packages|
        invariant events == GluePlan(packages[..k], opt)
      {
        var e, _ := packages[k].BuildWasmJs(opt);
        GluePlanSnoc(packages[..k], packages[k], opt);
        assert packages[..k + 1] == packages[..k] + [packages[k]];
        events := events + e;
      }
      assert packages[..|packages|] == packages;
    }
  }

  // ---------------------------------------------------------------------------
  // The glue-generation command

  /** The steps a build issues: an install, a compile or a glue-generation run, or the
      removal of the output directory. */
  datatype Event =
    | Install(invocation: Invocation)
    | Compile(invocation: Invocation)
    | RemoveDirAll(path: string)
    | Glue(invocation: Invocation)

  /** The install of one wasm-bindgen-cli version into its root. */
  function InstallStep(cargo: Cargo, wasmBindgenVersion: string): Event {
    Install(Invocation(cargo.path, ["install", "--root", InstallRoot(wasmBindgenVersion), "--", WASM_BINDGEN_CLI]))
  }

  /** The compiled module of a package (`source_wasm`). */
  function SourceWasm(packageName: string, release: bool): string {
    "./target/" + WASM32_UNKNOWN_UNKNOWN + "/" + (if release then "release" else "debug") + "/" + packageName + ".wasm"
  }

  /** The glue step reads the module the compile step writes: the first wasm-bindgen
      argument lies in the directory of the compile's `--target`, under the profile
      that the compile's `--release` selects, and its stem is the package name with
      every `-` turned into `_`, which is the name cargo gives the module. */
  lemma GlueReadsCompiledModule(info: PackageInfo, opt: Opt)
    ensures var m := GlueArgs(info, opt)[0];
            var dir := "./target/" + BuildArgs(opt.release)[2] + "/"
                       + (if "--release" in BuildArgs(opt.release) then "release" else "debug") + "/";
            |m| == |dir| + |info.GetPackageName()| + 5
            && m[..|dir|] == dir
            && m[|dir|..|m| - 5] == info.GetPackageName()
            && m[|m| - 5..] == ".wasm"
            && '-' !in m[|dir|..|m| - 5]
  {
    var name := info.GetPackageName();
    var dir := "./target/" + WASM32_UNKNOWN_UNKNOWN + "/" + (if opt.release then "release" else "debug") + "/";
    assert SourceWasm(name, opt.release) == dir + name + ".wasm";
    SeqConcatSlices(dir, name, ".wasm");
  }

  /** Distinct packages, or distinct profiles, have distinct compiled modules. */
  lemma SourceWasmInjective(n1: string, r1: bool, n2: string, r2: bool)
    ensures SourceWasm(n1, r1) == SourceWasm(n2, r2) <==> n1 == n2 && r1 == r2
  {
    var root := "./target/" + WASM32_UNKNOWN_UNKNOWN + "/";
    var d1 := root + (if r1 then "release" else "debug") + "/";
    var d2 := root + (if r2 then "release" else "debug") + "/";
    if SourceWasm(n1, r1) == SourceWasm(n2, r2) {
      assert SourceWasm(n1, r1) == d1 + n1 + ".wasm";
      assert SourceWasm(n2, r2) == d2 + n2 + ".wasm";
      assert SourceWasm(n1, r1)[|root|] == (if r1 then 'r' else 'd');
      assert SourceWasm(n2, r2)[|root|] == (if r2 then 'r' else 'd');
      SeqConcatSlices(d1, n1, ".wasm");
      SeqConcatSlices(d2, n2, ".wasm");
    }
  }

  /** The boolean options that map to a wasm-bindgen switch, in the order they are passed. */
  datatype GlueSwitch = NoTypescript | WeakRefs | ReferenceTypes | NoDemangle {
    function Flag(): string {
      match this
      case NoTypescript => "--no-typescript"
      case WeakRefs => "--weak-refs"
      case ReferenceTypes => "--reference-types"
      case NoDemangle => "--no-demangle"
    }

    /** TypeScript output is on unless asked for, so its switch suppresses it. */
    predicate SelectedBy(opt: Opt) {
      match this
      case NoTypescript => !opt.typescript
      case WeakRefs => opt.weakRefs
      case ReferenceTypes => opt.referenceTypes
      case NoDemangle => opt.noDemangle
    }
  }

  /** The switch part of the wasm-bindgen command: the flag of each selected switch,
      in the order the options are tested. */
  function GlueSwitchArgs(opt: Opt): seq<string> {
    SwitchArg(NoTypescript, opt) + SwitchArg(WeakRefs, opt) + SwitchArg(ReferenceTypes, opt)
    + SwitchArg(NoDemangle, opt)
  }

  /** The flag of `s` when the options select it, and nothing otherwise. */
  function SwitchArg(s: GlueSwitch, opt: Opt): seq<string> {
    if s.SelectedBy(opt) then [s.Flag()] else []
  }

  /** Each switch is passed exactly when its option selects it. */
  lemma GlueSwitchesSelected(opt: Opt)
    ensures forall s: GlueSwitch :: s.Flag() in GlueSwitchArgs(opt) <==> s.SelectedBy(opt)
  {
    assert |NoTypescript.Flag()| == 15 && |WeakRefs.Flag()| == 11;
    assert |ReferenceTypes.Flag()| == 17 && |NoDemangle.Flag()| == 13;
  }

  /** Nothing but switch flags is passed in the switch part, and none twice. */
  lemma GlueSwitchesDistinct(opt: Opt)
    ensures forall a :: a in GlueSwitchArgs(opt) ==> exists s: GlueSwitch :: s.Flag() == a
    ensures forall i, j :: 0 <= i < j < |GlueSwitchArgs(opt)| ==> GlueSwitchArgs(opt)[i] != GlueSwitchArgs(opt)[j]
  {
    assert |NoTypescript.Flag()| == 15 && |WeakRefs.Flag()| == 11;
    assert |ReferenceTypes.Flag()| == 17 && |NoDemangle.Flag()| == 13;
    forall a | a in GlueSwitchArgs(opt) ensures exists s: GlueSwitch :: s.Flag() == a {
      if a == "--no-typescript" {
        assert NoTypescript.Flag() == a;
      } else if a == "--weak-refs" {
        assert WeakRefs.Flag() == a;
      } else if a == "--reference-types" {
        assert ReferenceTypes.Flag() == a;
      } else {
        assert NoDemangle.Flag() == a;
      }
    }
  }

  /** The wasm-bindgen arguments: the compiled module, the target, the selected
      switches, then the output directory. */
  function GlueArgs(info: PackageInfo, opt: Opt): seq<string> {
    [SourceWasm(info.GetPackageName(), opt.release), "--target", TargetName(opt)]
    + GlueSwitchArgs(opt)
    + ["--out-dir", OutDirOf(opt)]
  }

  /** The layout of the wasm-bindgen arguments: the compiled module of the package,
      the target (web by default), the switches, and the output directory (`dist/js`
      by default) as the last pair. */
  lemma GlueArgsLayout(info: PackageInfo, opt: Opt)
    ensures |GlueArgs(info, opt)| == 5 + |GlueSwitchArgs(opt)| <= 9
    ensures GlueArgs(info, opt)[0] == SourceWasm(info.GetPackageName(), opt.release)
    ensures GlueArgs(info, opt)[1..3] == ["--target", if opt.target.None? then "web" else opt.target.value.AsRef()]
    ensures GlueArgs(info, opt)[3..|GlueArgs(info, opt)| - 2] == GlueSwitchArgs(opt)
    ensures GlueArgs(info, opt)[|GlueArgs(info, opt)| - 2..]
            == ["--out-dir", if opt.outDir.None? then "dist/js" else opt.outDir.value]
  {
    var head := [SourceWasm(info.GetPackageName(), opt.release), "--target", TargetName(opt)];
    var sw := GlueSwitchArgs(opt);
    var tail := ["--out-dir", OutDirOf(opt)];
    SeqConcatSlices(head, sw, tail);
    assert head[1..3] == ["--target", TargetName(opt)];
  }

  /** The glue step of one package: the optional clean of the output directory, then
      the wasm-bindgen run with the binary of the package's version. */
  function GlueEvents(info: PackageInfo, opt: Opt): seq<Event> {
    (if opt.clean then [RemoveDirAll(OutDirOf(opt))] else [])
    + [GlueRun(info, opt)]
  }

  /** The wasm-bindgen run of one package, with the binary of the package's version. */
  function GlueRun(info: PackageInfo, opt: Opt): Event {
    Glue(Invocation(PathToCli(info.wasmBindgenVersion), GlueArgs(info, opt)))
  }

  /** The glue steps of a list of packages, one package after the other. */
  function GluePlan(infos: seq<PackageInfo>, opt: Opt): seq<Event> {
    if infos == [] then [] else GlueEvents(infos[0], opt) + GluePlan(infos[1..], opt)
  }

  lemma {:induction false} GluePlanSnoc(infos: seq<PackageInfo>, info: PackageInfo, opt: Opt)
    ensures GluePlan(infos + [info], opt) == GluePlan(infos, opt) + GlueEvents(info, opt)
  {
    if infos == [] {
      assert [info][1..] == [];
    } else {
      assert (infos + [info])[1..] == infos[1..] + [info];
      GluePlanSnoc(infos[1..], info, opt);
    }
  }

  /** With cleaning, the glue steps alternate removal and run: the directory is
      removed again before every package, so each removal after the first deletes the
      glue of the packages before it. */
  lemma GluePlanCleanShape(infos: seq<PackageInfo>, opt: Opt)
    requires opt.clean
    ensures |GluePlan(infos, opt)| == 2 * |infos|
    ensures forall k :: 0 <= k < |infos| ==>
            GluePlan(infos, opt)[2 * k] == RemoveDirAll(OutDirOf(opt))
            && GluePlan(infos, opt)[2 * k + 1] == GlueRun(infos[k], opt)
  {
    GluePlanCleanLength(infos, opt);
    forall k | 0 <= k < |infos|
      ensures GluePlan(infos, opt)[2 * k] == RemoveDirAll(OutDirOf(opt))
      ensures GluePlan(infos, opt)[2 * k + 1] == GlueRun(infos[k], opt)
    {
      GluePlanCleanAt(infos, opt, k);
    }
  }

  lemma {:induction false} GluePlanCleanLength(infos: seq<PackageInfo>, opt: Opt)
    requires opt.clean
    ensures |GluePlan(infos, opt)| == 2 * |infos|
  {
    if infos != [] {
      GluePlanCleanLength(infos[1..], opt);
    }
  }

  /** The steps of the `k`-th package, when cleaning. */
  lemma {:induction false} GluePlanCleanAt(infos: seq<PackageInfo>, opt: Opt, k: nat)
    requires opt.clean && k < |infos|
    ensures 2 * k + 1 < |GluePlan(infos, opt)|
    ensures GluePlan(infos, opt)[2 * k] == RemoveDirAll(OutDirOf(opt))
    ensures GluePlan(infos, opt)[2 * k + 1] == GlueRun(infos[k], opt)
  {
    GluePlanCleanLength(infos, opt);
    var rest := GluePlan(infos[1..], opt);
    assert GluePlan(infos, opt) == [RemoveDirAll(OutDirOf(opt)), GlueRun(infos[0], opt)] + rest;
    if k > 0 {
      GluePlanCleanAt(infos[1..], opt, k - 1);
      assert infos[1..][k - 1] == infos[k];
    }
  }

  /** Without cleaning, the glue steps are the wasm-bindgen runs alone, one per package. */
  lemma {:induction false} GluePlanRunsOnly(infos: seq<PackageInfo>, opt: Opt)
    requires !opt.clean
    ensures |GluePlan(infos, opt)| == |infos|
    ensures forall k :: 0 <= k < |infos| ==>
            GluePlan(infos, opt)[k] == GlueRun(infos[k], opt)
  {
    if infos != [] {
      GluePlanRunsOnly(infos[1..], opt);
      var rest := GluePlan(infos[1..], opt);
      assert GluePlan(infos, opt) == [GlueRun(infos[0], opt)] + rest;
      forall k | 1 <= k < |infos|
        ensures GluePlan(infos, opt)[k] == rest[k - 1]
        ensures infos[1..][k - 1] == infos[k]
      {
      }
    }
  }

  /** With cleaning on, the output of the first package is removed again when a second
      package follows. */
  lemma CleanRemovesEarlierGlue(infos: seq<PackageInfo>, opt: Opt)
    requires opt.clean && |infos| >= 2
    ensures |GluePlan(infos, opt)| >= 4
    ensures GluePlan(infos, opt)[1].Glue? && GluePlan(infos, opt)[2] == RemoveDirAll(OutDirOf(opt))
  {
    GluePlanCleanShape(infos, opt);
    assert 2 * 1 == 2;
  }

  // ---------------------------------------------------------------------------
  // The whole build

  /** Every wasm-bindgen run of a glue plan uses the executable of the version of one
      of the planned packages. */
  lemma {:induction false} GluePlanPrograms(infos: seq<PackageInfo>, opt: Opt)
    ensures forall i :: 0 <= i < |GluePlan(infos, opt)| && GluePlan(infos, opt)[i].Glue? ==>
            exists k :: 0 <= k < |infos| && GluePlan(infos, opt)[i].invocation.program == PathToCli(infos[k].wasmBindgenVersion)
  {
    if infos != [] {
      GluePlanPrograms(infos[1..], opt);
      var head, rest := GlueEvents(infos[0], opt), GluePlan(infos[1..], opt);
      forall i | 0 <= i < |GluePlan(infos, opt)| && GluePlan(infos, opt)[i].Glue?
        ensures exists k :: 0 <= k < |infos| && GluePlan(infos, opt)[i].invocation.program == PathToCli(infos[k].wasmBindgenVersion)
      {
        if i < |head| {
          assert GluePlan(infos, opt)[i] == GlueRun(infos[0], opt);
        } else {
          assert GluePlan(infos, opt)[i] == rest[i - |head|];
          var k :| 0 <= k < |infos[1..]| && rest[i - |head|].invocation.program == PathToCli(infos[1..][k].wasmBindgenVersion);
          assert infos[1..][k] == infos[k + 1];
        }
      }
    }
  }

  /** Rank of a step in the order of the build's phases. */
  function Phase(e: Event): int {
    match e
    case Install(_) => 0
    case Compile(_) => 1
    case RemoveDirAll(_) => 2
    case Glue(_) => 2
  }

  /** `CargoWasm::build`: installs and compiles (cargo-wasm runs them side by side, here
      recorded installs first), then, after both are done, the glue steps. The installs
      are those of `BindgenPackages::install_wasm_bindgen_cli`, so every wasm-bindgen run
      comes after the install of the version whose executable it runs. */
  method Build(bp: BindgenPackages, opt: Opt) returns (versions: seq<string>, trace: seq<Event>)
    ensures forall v :: v in versions <==> v in VersionSet(bp.packages)
    ensures forall i, j :: 0 <= i < j < |versions| ==> Less(versions[i], versions[j])
    ensures |versions| == |VersionSet(bp.packages)|
    ensures |trace| == |versions| + |bp.packages| + |GluePlan(bp.packages, opt)|
    ensures forall i :: 0 <= i < |versions| ==> trace[i] == InstallStep(bp.cargo, versions[i])
    ensures forall i :: 0 <= i < |trace| ==> (trace[i].Install? <==> i < |versions|)
    ensures forall i :: |versions| <= i < |versions| + |bp.packages| ==>
            trace[i] == Compile(Invocation(bp.cargo.path, BuildArgs(opt.release)))
    ensures trace[|versions| + |bp.packages|..] == GluePlan(bp.packages, opt)
    ensures forall i, j :: 0 <= i < j < |trace| ==> Phase(trace[i]) <= Phase(trace[j])
    ensures forall i :: 0 <= i < |trace| && trace[i].Glue? ==>
            exists j :: 0 <= j < |versions| && j < i && trace[i].invocation.program == PathToCli(versions[j])
  {
    var installs;
    versions, installs := bp.InstallWasmBindgenCli();
    var compiles := bp.BuildWasm32UnknownUnknown(opt);
    var glue := bp.BuildWasmJs(opt);
    GluePlanPhase(bp.packages, opt);
    trace := installs + compiles + glue;
    var base := |installs| + |compiles|;
    assert trace[base..] == glue;
    GlueAfterInstall(bp.packages, opt, versions, trace, base);
  }

  /** The glue part of a trace starts after its installs, and each of its runs uses the
      executable of an installed version. */
  lemma GlueAfterInstall(infos: seq<PackageInfo>, opt: Opt, versions: seq<string>, trace: seq<Event>, base: nat)
    requires |versions| <= base <= |trace|
    requires forall i :: 0 <= i < base ==> !trace[i].Glue?
    requires trace[base..] == GluePlan(infos, opt)
    requires forall v :: v in VersionSet(infos) ==> v in versions
    ensures forall i :: 0 <= i < |trace| && trace[i].Glue? ==>
            exists j :: 0 <= j < |versions| && j < i && trace[i].invocation.program == PathToCli(versions[j])
  {
    GluePlanPrograms(infos, opt);
    forall i | 0 <= i < |trace| && trace[i].Glue?
      ensures exists j :: 0 <= j < |versions| && j < i && trace[i].invocation.program == PathToCli(versions[j])
    {
      assert trace[i] == GluePlan(infos, opt)[i - base];
      var k :| 0 <= k < |infos| && GluePlan(infos, opt)[i - base].invocation.program == PathToCli(infos[k].wasmBindgenVersion);
      var v := infos[k].wasmBindgenVersion;
      assert v in VersionSet(infos);
      var j :| 0 <= j < |versions| && versions[j] == v;
    }
  }

  lemma {:induction false} GluePlanPhase(infos: seq<PackageInfo>, opt: Opt)
    ensures forall i :: 0 <= i < |GluePlan(infos, opt)| ==> Phase(GluePlan(infos, opt)[i]) == 2
  {
    if infos != [] {
      GluePlanPhase(infos[1..], opt);
    }
  }

  /** `CargoWasm::run` for the build command: nothing happens when the metadata cannot
      be read; otherwise discovery, then the build, which installs the one version the
      discovered packages share, compiles once per package, and generates their glue
      with that version's executable. */
  method RunBuild(cargo: Cargo, metadata: Result<Metadata, string>, opt: Opt) returns (trace: seq<Event>)
    ensures metadata.Err? ==> trace == []
    ensures metadata.Ok? && Discovered(metadata.value) == [] ==> trace == []
    ensures metadata.Ok? && FindBindgenVersion(metadata.value.packages).None? ==> trace == []
    ensures forall i, j :: 0 <= i < |trace| && 0 <= j < |trace| && trace[i].Install? && trace[j].Install? ==> i == j
    ensures metadata.Ok? && Discovered(metadata.value) != [] ==>
            FindBindgenVersion(metadata.value.packages).Some?
            && |trace| == 1 + |Discovered(metadata.value)| + |GluePlan(Discovered(metadata.value), opt)|
            && trace[0] == InstallStep(cargo, FindBindgenVersion(metadata.value.packages).value)
            && (forall i :: 1 <= i <= |Discovered(metadata.value)| ==>
                trace[i] == Compile(Invocation(cargo.path, BuildArgs(opt.release))))
            && trace[1 + |Discovered(metadata.value)|..] == GluePlan(Discovered(metadata.value), opt)
            && (forall i :: 0 <= i < |trace| && trace[i].Glue? ==>
                trace[i].invocation.program == PathToCli(FindBindgenVersion(metadata.value.packages).value))
  {
    match metadata
    case Err(_) => trace := [];
    case Ok(m) =>
      var bp := BindgenPackages.New(cargo, m);
      var versions;
      versions, trace := Build(bp, opt);
      if Discovered(m) == [] {
        assert VersionSet([]) == {};
      } else {
        DiscoveredSingleVersion(m);
        var v := FindBindgenVersion(m.packages).value;
        assert versions[0] in VersionSet(bp.packages);
        assert versions == [v];
        SingleVersionTrace(bp, opt, v, versions, trace);
      }
  }

  /** A build over packages that share one version installs that version once, first,
      and runs only its executable. */
  lemma SingleVersionTrace(bp: BindgenPackages, opt: Opt, v: string, versions: seq<string>, trace: seq<Event>)
    requires versions == [v]
    requires |trace| == |versions| + |bp.packages| + |GluePlan(bp.packages, opt)|
    requires forall i :: 0 <= i < |versions| ==> trace[i] == InstallStep(bp.cargo, versions[i])
    requires forall i :: 0 <= i < |trace| ==> (trace[i].Install? <==> i < |versions|)
    requires forall i :: |versions| <= i < |versions| + |bp.packages| ==>
             trace[i] == Compile(Invocation(bp.cargo.path, BuildArgs(opt.release)))
    requires trace[|versions| + |bp.packages|..] == GluePlan(bp.packages, opt)
    requires forall i :: 0 <= i < |trace| && trace[i].Glue? ==>
             exists j :: 0 <= j < |versions| && j < i && trace[i].invocation.program == PathToCli(versions[j])
    ensures |trace| == 1 + |bp.packages| + |GluePlan(bp.packages, opt)|
    ensures trace[0] == InstallStep(bp.cargo, v)
    ensures forall i :: 1 <= i <= |bp.packages| ==> trace[i] == Compile(Invocation(bp.cargo.path, BuildArgs(opt.release)))
    ensures trace[1 + |bp.packages|..] == GluePlan(bp.packages, opt)
    ensures forall i :: 0 <= i < |trace| && trace[i].Glue? ==> trace[i].invocation.program == PathToCli(v)
    ensures forall i, j :: 0 <= i < |trace| && 0 <= j < |trace| && trace[i].Install? && trace[j].Install? ==> i == j
  {
    forall i | 0 <= i < |trace| && trace[i].Glue? ensures trace[i].invocation.program == PathToCli(v) {
      var j :| 0 <= j < |versions| && j < i && trace[i].invocation.program == PathToCli(versions[j]);
    }
  }

  // ---------------------------------------------------------------------------
  // Starter Cargo.toml

  /** The marker the tool looks for before rewriting a new project's `Cargo.toml`. */
  const CRATE_TYPE_LINE: string := "crate-type = [\"cdylib\", \"rlib\"]"

  /** `new_template_project`'s rewrite of `Cargo.toml`: unless the marker is already
      there, `[dependencies]` is replaced by the starter dependencies. */
  function RewriteCargoToml(cargoToml: string): string {
    if !Contains(cargoToml, CRATE_TYPE_LINE) then ReplaceAll(cargoToml, "[dependencies]", Templates.DEPENDENCIES)
    else cargoToml
  }

  lemma DependenciesDeclareCrateType()
    ensures Contains(Templates.DEPENDENCIES, CRATE_TYPE_LINE)
  {
    assert Templates.CRATE_TYPE == CRATE_TYPE_LINE;
    ContainsMiddle(Templates.LIB_SECTION, Templates.CRATE_TYPE, Templates.DEPENDENCY_SECTION);
  }

  /** After a rewrite that found `[dependencies]`, the marker is present, so the guard
      stops a second run from rewriting again. */
  lemma RewriteCargoTomlSetsMarker(cargoToml: string)
    requires Contains(cargoToml, "[dependencies]")
    ensures Contains(RewriteCargoToml(cargoToml), CRATE_TYPE_LINE)
  {
    if !Contains(cargoToml, CRATE_TYPE_LINE) {
      DependenciesDeclareCrateType();
      ReplaceAllBringsReplacement(cargoToml, "[dependencies]", Templates.DEPENDENCIES, CRATE_TYPE_LINE);
    }
  }

  /** Rewriting twice is rewriting once. */
  lemma RewriteCargoTomlIdempotent(cargoToml: string)
    ensures RewriteCargoToml(RewriteCargoToml(cargoToml)) == RewriteCargoToml(cargoToml)
  {
    if !Contains(cargoToml, CRATE_TYPE_LINE) {
      if Contains(cargoToml, "[dependencies]") {
        RewriteCargoTomlSetsMarker(cargoToml);
      } else {
        ReplaceAllWithoutMatch(cargoToml, "[dependencies]", Templates.DEPENDENCIES);
      }
    }
  }
}
