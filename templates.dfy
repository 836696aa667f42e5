/** The starter files written for a new project (src/templates.rs): fixed texts and
    the generated `index.html` page. */
module Templates {
  import opened Common
  import opened Text

  /** `src/lib.rs` of a new project. */
  const LIB_RS: string :=
    "use wasm_bindgen::prelude::*;\n\n#[wasm_bindgen(start)]\npub fn main() {\n"
    + "    web_sys::console::log_1(&\"rust says hello from wasm\".into());\n}"

  const LIB_SECTION: string := "[lib]\n"
  const CRATE_TYPE: string := "crate-type = [\"cdylib\", \"rlib\"]"
  const DEPENDENCY_SECTION: string :=
    "\n\n[dependencies]\nwasm-bindgen = \"0.2\"\n"
    + "web-sys = { version = \"0.3\", features = [\"console\"] }"

  /** The text that replaces `[dependencies]` in a new project's `Cargo.toml`: a `[lib]`
      section declaring the crate types, then the dependency section. */
  const DEPENDENCIES: string := LIB_SECTION + CRATE_TYPE + DEPENDENCY_SECTION

  /** `.gitignore` of a new project. */
  const GITIGNORE: string := "/target\nCargo.lock\n/dist/js"

  const DOCTYPE: string := "<!DOCTYPE html>"

  const HTML_HEAD_AND_BODY: string :=
    "\n<html>\n\n<head>\n    <meta charset=\"utf-8\">\n</head>\n\n<body>\n"
    + "<div>Hello from rust + wasm. Check the browser console.</div>\n"

  const BODY_END: string := "</body>\n"

  /** Everything of the page before the script block; it ends with `</body>`. */
  const HTML_BEFORE_SCRIPT: string := DOCTYPE + HTML_HEAD_AND_BODY + BODY_END

  const HTML_END: string := "</html>"

  /** Everything of the page after the script block. */
  const HTML_AFTER_SCRIPT: string := "\n" + HTML_END

  const BUNDLER_OPEN: string := "<script src=\"./js/"
  const BUNDLER_CLOSE: string := ".js\"></script>"

  /** The classic script tag, used when the glue is bundled. */
  function BundlerScript(projectName: string): string {
    BUNDLER_OPEN + projectName + BUNDLER_CLOSE
  }

  const MODULE_OPEN: string := "<script type=\"module\">\n    "
  const IMPORT_OPEN: string := "import init from './js/"
  const IMPORT_CLOSE: string := ".js';"
  const INIT_CALL: string := "\n    init();"
  const MODULE_CLOSE: string := "\n</script>"

  /** The import line of the module script. */
  function ImportLine(projectName: string): string {
    IMPORT_OPEN + projectName + IMPORT_CLOSE
  }

  /** The ES-module script block, used when the glue is loaded directly: the import
      line, then the call of `init` on the next line. */
  function ModuleScript(projectName: string): string {
    MODULE_OPEN + (ImportLine(projectName) + INIT_CALL) + MODULE_CLOSE
  }

  function Script(projectName: string, bundler: bool): string {
    if bundler then BundlerScript(projectName) else ModuleScript(projectName)
  }

  /** `make_html`: the page of a new project, loading the project's glue. */
  function MakeHtml(projectName: string, bundler: bool): string {
    HTML_BEFORE_SCRIPT + Script(projectName, bundler) + HTML_AFTER_SCRIPT
  }

  /** The page starts with the document type and ends by closing the `html` element. */
  lemma MakeHtmlFrame(projectName: string, bundler: bool)
    ensures |MakeHtml(projectName, bundler)| >= |DOCTYPE| + |HTML_END|
    ensures MakeHtml(projectName, bundler)[..|DOCTYPE|] == DOCTYPE
    ensures MakeHtml(projectName, bundler)[|MakeHtml(projectName, bundler)| - |HTML_END|..] == HTML_END
  {
    var middle := HTML_HEAD_AND_BODY + BODY_END + Script(projectName, bundler) + "\n";
    ConcatRegroup(DOCTYPE, HTML_HEAD_AND_BODY + BODY_END, Script(projectName, bundler), "\n", HTML_END);
    SeqConcatSlices(DOCTYPE, middle, HTML_END);
  }

  /** The script block comes right after `</body>`, and it is the only part of the
      page that depends on the arguments. */
  lemma MakeHtmlLayout(projectName: string, bundler: bool)
    ensures MakeHtml(projectName, bundler)[..|HTML_BEFORE_SCRIPT|] == HTML_BEFORE_SCRIPT
    ensures HTML_BEFORE_SCRIPT[|HTML_BEFORE_SCRIPT| - |BODY_END|..] == BODY_END
    ensures MakeHtml(projectName, bundler)[|HTML_BEFORE_SCRIPT|..|MakeHtml(projectName, bundler)| - |HTML_AFTER_SCRIPT|]
            == Script(projectName, bundler)
    ensures MakeHtml(projectName, bundler)[|MakeHtml(projectName, bundler)| - |HTML_AFTER_SCRIPT|..] == HTML_AFTER_SCRIPT
  {
    SeqConcatSlices(HTML_BEFORE_SCRIPT, Script(projectName, bundler), HTML_AFTER_SCRIPT);
    SeqConcatSlices(DOCTYPE + HTML_HEAD_AND_BODY, BODY_END, []);
  }

  /** A bundler page loads `./js/<name>.js` with a classic script tag. */
  lemma MakeHtmlBundlerLoadsScript(projectName: string)
    ensures Contains(MakeHtml(projectName, true), BUNDLER_OPEN + projectName + BUNDLER_CLOSE)
  {
    ContainsMiddle(HTML_BEFORE_SCRIPT, BundlerScript(projectName), HTML_AFTER_SCRIPT);
  }

  /** A non-bundler page holds a module script block whose body is the line importing
      `init` from `./js/<name>.js`, followed by the call of `init`. */
  lemma MakeHtmlModuleImportsInit(projectName: string)
    ensures Contains(MakeHtml(projectName, false),
                     MODULE_OPEN + (IMPORT_OPEN + projectName + IMPORT_CLOSE + INIT_CALL) + MODULE_CLOSE)
    ensures Contains(MakeHtml(projectName, false), IMPORT_OPEN + projectName + IMPORT_CLOSE + INIT_CALL)
  {
    ContainsMiddle(HTML_BEFORE_SCRIPT, ModuleScript(projectName), HTML_AFTER_SCRIPT);
    ContainsMiddle(MODULE_OPEN, ImportLine(projectName) + INIT_CALL, MODULE_CLOSE);
    ContainsWithin(HTML_BEFORE_SCRIPT, ModuleScript(projectName), HTML_AFTER_SCRIPT,
                   ImportLine(projectName) + INIT_CALL);
  }

  /** A classic script tag is never a module script block: they differ at their
      ninth character. */
  lemma BundlerScriptIsNotModuleScript(n1: string, n2: string)
    ensures BundlerScript(n1) != ModuleScript(n2)
  {
    assert BundlerScript(n1)[8] == BUNDLER_OPEN[8] == 's';
    assert ModuleScript(n2)[8] == MODULE_OPEN[8] == 't';
  }

  lemma BundlerScriptInjective(n1: string, n2: string)
    requires BundlerScript(n1) == BundlerScript(n2)
    ensures n1 == n2
  {
    SeqConcatSlices(BUNDLER_OPEN, n1, BUNDLER_CLOSE);
    SeqConcatSlices(BUNDLER_OPEN, n2, BUNDLER_CLOSE);
  }

  lemma ModuleScriptInjective(n1: string, n2: string)
    requires ModuleScript(n1) == ModuleScript(n2)
    ensures n1 == n2
  {
    var t1, t2 := ImportLine(n1) + INIT_CALL, ImportLine(n2) + INIT_CALL;
    SeqConcatSlices(MODULE_OPEN, t1, MODULE_CLOSE);
    SeqConcatSlices(MODULE_OPEN, t2, MODULE_CLOSE);
    assert t1 == IMPORT_OPEN + n1 + (IMPORT_CLOSE + INIT_CALL);
    assert t2 == IMPORT_OPEN + n2 + (IMPORT_CLOSE + INIT_CALL);
    SeqConcatSlices(IMPORT_OPEN, n1, IMPORT_CLOSE + INIT_CALL);
    SeqConcatSlices(IMPORT_OPEN, n2, IMPORT_CLOSE + INIT_CALL);
  }

  /** Two pages are equal exactly when they were made from the same name and the same
      choice of script: the page determines both arguments. */
  lemma MakeHtmlInjective(n1: string, b1: bool, n2: string, b2: bool)
    ensures MakeHtml(n1, b1) == MakeHtml(n2, b2) <==> n1 == n2 && b1 == b2
  {
    if MakeHtml(n1, b1) == MakeHtml(n2, b2) {
      MakeHtmlLayout(n1, b1);
      MakeHtmlLayout(n2, b2);
      assert Script(n1, b1) == Script(n2, b2);
      if b1 && b2 {
        BundlerScriptInjective(n1, n2);
      } else if !b1 && !b2 {
        ModuleScriptInjective(n1, n2);
      } else if b1 {
        BundlerScriptIsNotModuleScript(n1, n2);
      } else {
        BundlerScriptIsNotModuleScript(n2, n1);
      }
    }
  }
}
