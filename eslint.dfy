/** setupESLint: the flat-config file eslint.config.js (its import list and layout), the
    two fixed config files, and the merge of lint scripts and devDependencies into the
    project's package.json, whose failures only log a warning. */
module ESLint {
  import opened JsText

  // ---------------------------------------------------------------------------
  // eslint.config.js

  const JsImport := "import js from " + "'@eslint/js'"
  const GlobalsImport := "import globals from " + "'globals'"
  const HooksImport := "import reactHooks from " + "'eslint-plugin-react-hooks'"
  const RefreshImport := "import reactRefresh from " + "'eslint-plugin-react-refresh'"
  const TsImport := "import tseslint from " + "'typescript-eslint'"
  const PrettierImport := "import prettier from " + "'eslint-plugin-prettier'"
  const ConfigPrettierImport := "import eslintConfigPrettier " + "from 'eslint-config-prettier'"

  /** template === "react-ts" */
  predicate IsTs(template: string)
  {
    template == "react-ts"
  }

  /** The array literal before filtering: the typescript-eslint entry is null unless the
      template is TypeScript. */
  function ImportCandidates(isTs: bool): seq<Option<string>>
  {
    [Some(JsImport), Some(GlobalsImport), Some(HooksImport), Some(RefreshImport),
     if isTs then Some(TsImport) else None,
     Some(PrettierImport), Some(ConfigPrettierImport)]
  }

  /** .filter(Boolean) on an array of strings and nulls: null and "" are dropped, the
      rest keep their order. */
  function FilterTruthy(xs: seq<Option<string>>): (r: seq<string>)
    ensures |r| <= |xs|
  {
    if |xs| == 0 then []
    else
      var rest := FilterTruthy(xs[1..]);
      if xs[0].Some? && xs[0].value != "" then [xs[0].value] + rest else rest
  }

  /** The import lines of eslint.config.js. */
  function ImportLines(isTs: bool): seq<string>
  {
    FilterTruthy(ImportCandidates(isTs))
  }

  /** Filtering keeps or drops the first entry and goes on with the rest. */
  lemma FilterStep(xs: seq<Option<string>>, k: nat)
    requires k < |xs|
    ensures FilterTruthy(xs[k..])
         == (if xs[k].Some? && xs[k].value != "" then [xs[k].value] else []) + FilterTruthy(xs[k + 1..])
  {
    assert xs[k..][1..] == xs[k + 1..];
  }

  /** Filtering the seven-entry list: the fifth entry is the only one that may drop. */
  lemma FilterSeven(a: string, b: string, c: string, d: string, x: Option<string>, e: string, f: string)
    requires a != "" && b != "" && c != "" && d != "" && e != "" && f != ""
    ensures FilterTruthy([Some(a), Some(b), Some(c), Some(d), x, Some(e), Some(f)])
         == [a, b, c, d] + (if x.Some? && x.value != "" then [x.value] else []) + [e, f]
  {
    var tail := [x, Some(e), Some(f)];
    FilterLastThree(x, e, f);
    FilterPresentPair(c, d, tail);
    FilterPresentPair(a, b, [Some(c), Some(d)] + tail);
    assert [Some(a), Some(b), Some(c), Some(d), x, Some(e), Some(f)]
        == [Some(a), Some(b)] + ([Some(c), Some(d)] + tail);
  }

  /** Two present, non-empty entries in front are kept in front. */
  lemma FilterPresentPair(a: string, b: string, rest: seq<Option<string>>)
    requires a != "" && b != ""
    ensures FilterTruthy([Some(a), Some(b)] + rest) == [a, b] + FilterTruthy(rest)
  {
    var xs := [Some(a), Some(b)] + rest;
    FilterStep(xs, 1); FilterStep(xs, 0);
    assert xs[2..] == rest;
    assert xs[0..] == xs;
  }

  /** The last three entries of that list. */
  lemma FilterLastThree(x: Option<string>, e: string, f: string)
    requires e != "" && f != ""
    ensures FilterTruthy([x, Some(e), Some(f)])
         == (if x.Some? && x.value != "" then [x.value] else []) + [e, f]
  {
    var xs := [x, Some(e), Some(f)];
    FilterStep(xs, 2); FilterStep(xs, 1); FilterStep(xs, 0);
    assert xs[0..] == xs;
  }

  /** For TypeScript the typescript-eslint import sits between the react-refresh import
      and the prettier imports. */
  lemma ImportLinesTs()
    ensures ImportLines(true)
         == [JsImport, GlobalsImport, HooksImport, RefreshImport, TsImport, PrettierImport, ConfigPrettierImport]
  {
    FilterSeven(JsImport, GlobalsImport, HooksImport, RefreshImport, Some(TsImport), PrettierImport, ConfigPrettierImport);
  }

  /** Otherwise the same imports appear without it. */
  lemma ImportLinesJs()
    ensures ImportLines(false)
         == [JsImport, GlobalsImport, HooksImport, RefreshImport, PrettierImport, ConfigPrettierImport]
  {
    FilterSeven(JsImport, GlobalsImport, HooksImport, RefreshImport, None, PrettierImport, ConfigPrettierImport);
  }

  /** Filtering keeps exactly the present, non-empty entries. */
  lemma {:induction false} FilterMembers(xs: seq<Option<string>>)
    ensures forall x :: x in FilterTruthy(xs) <==> Some(x) in xs && x != ""
    decreases |xs|
  {
    if |xs| > 0 {
      FilterMembers(xs[1..]);
      assert forall x :: Some(x) in xs <==> xs[0] == Some(x) || Some(x) in xs[1..];
    }
  }

  /** Character facts about the import literals, two per lemma, so that the solver
      checks each literal once. */
  lemma ImportsUnbrokenA() ensures '\n' !in JsImport && '\n' !in GlobalsImport {}
  lemma ImportsUnbrokenB() ensures '\n' !in HooksImport && '\n' !in RefreshImport {}
  lemma ImportsUnbrokenC() ensures '\n' !in TsImport && '\n' !in PrettierImport {}
  lemma ImportsUnbrokenD() ensures '\n' !in ConfigPrettierImport {}

  /** No import line holds a line break. */
  lemma ImportLinesUnbroken(isTs: bool)
    ensures forall k :: 0 <= k < |ImportLines(isTs)| ==> '\n' !in ImportLines(isTs)[k]
  {
    ImportsUnbrokenA();
    ImportsUnbrokenB();
    ImportsUnbrokenC();
    ImportsUnbrokenD();
    ImportLinesTs();
    ImportLinesJs();
  }

  /** Seven import lines for TypeScript, six otherwise, and the typescript-eslint import
      is there exactly for TypeScript. */
  lemma ImportListShape(isTs: bool)
    ensures |ImportLines(isTs)| == if isTs then 7 else 6
    ensures TsImport in ImportLines(isTs) <==> isTs
  {
    ImportLinesTs();
    ImportLinesJs();
    assert |TsImport| == 40;
    assert |JsImport| != 40 && |GlobalsImport| != 40 && |HooksImport| != 40;
    assert |RefreshImport| != 40 && |PrettierImport| != 40 && |ConfigPrettierImport| != 40;
  }

  /** The import lines joined by newlines. */
  function ImportText(isTs: bool): string
  {
    Join(ImportLines(isTs), '\n')
  }

  /** `${configImports}\n\n${configExport}\n`, where exportBlock is the trimmed
      `export default` block (a template body this model does not spell out). */
  function ConfigFileText(isTs: bool, exportBlock: string): string
  {
    ImportText(isTs) + "\n\n" + exportBlock + "\n"
  }

  /** Read line by line, eslint.config.js is the import lines, one blank line, the lines
      of the export block, and an empty last line after the final newline; joining
      those lines gives the file back. */
  lemma ConfigLines(isTs: bool, exportBlock: string)
    ensures Split(ConfigFileText(isTs, exportBlock), '\n')
         == ImportLines(isTs) + [""] + Split(exportBlock, '\n') + [""]
    ensures Join(ImportLines(isTs) + [""] + Split(exportBlock, '\n') + [""], '\n')
         == ConfigFileText(isTs, exportBlock)
  {
    ImportLinesUnbroken(isTs);
    SplitJoin(ImportLines(isTs), '\n');
    var nl := '\n';
    NewlineTexts();
    Regroup(ImportText(isTs), [nl], [nl]);
    BlankLineBetween(ImportText(isTs), exportBlock, nl);
    JoinSplit(ConfigFileText(isTs, exportBlock), nl);
  }

  /** The blank-line literal is two newlines. */
  lemma NewlineTexts()
    ensures "\n\n" == ['\n'] + ['\n'] && "\n" == ['\n']
  {
  }

  // ---------------------------------------------------------------------------
  // .prettierrc and .eslintignore

  /** The trimmed .prettierrc text. */
  const PrettierConfig :=
    "{\n"
    + "  \"semi\": true,\n"
    + "  \"singleQuote\": true,\n"
    + "  \"trailingComma\": \"es5\",\n"
    + "  \"printWidth\": 100,\n"
    + "  \"tabWidth\": 2,\n"
    + "  \"useTabs\": false,\n"
    + "  \"bracketSpacing\": true,\n"
    + "  \"arrowParens\": \"avoid\",\n"
    + "  \"endOfLine\": \"lf\"\n"
    + "}"

  /** The trimmed .eslintignore text. */
  const EslintIgnore := "node_modules\ndist\nbuild\nsrc-tauri"

  /** .eslintignore lists, one per line, exactly the dependency, build output and Rust
      back-end directories, with no trailing empty line. */
  lemma EslintIgnoreLines()
    ensures Split(EslintIgnore, '\n') == ["node_modules", "dist", "build", "src-tauri"]
  {
    var paths := ["node_modules", "dist", "build", "src-tauri"];
    JoinFour("node_modules", "dist", "build", "src-tauri", '\n');
    EslintIgnoreText();
    SplitJoin(paths, '\n');
  }

  /** The .eslintignore literal, newline by newline. */
  lemma EslintIgnoreText()
    ensures EslintIgnore
         == "node_modules" + ['\n'] + "dist" + ['\n'] + "build" + ['\n'] + "src-tauri"
  {
  }

  // ---------------------------------------------------------------------------
  // package.json as JSON.parse returns it

  datatype Json =
    | JNull
    | JBool(b: bool)
    | JNum(n: int)
    | JStr(s: string)
    | JArr(items: seq<Json>)
    | JObj(fields: map<string, Json>)

  /** JavaScript truthiness: null, false, 0 and "" are falsy. */
  predicate Truthy(v: Json)
  {
    match v
    case JNull => false
    case JBool(b) => b
    case JNum(n) => n != 0
    case JStr(s) => s != ""
    case _ => true
  }

  /** o[k] on an object; an absent key reads as undefined, which behaves as null in
      every place the merge reads it (spread and ||). */
  function Field(o: map<string, Json>, k: string): Json
  {
    if k in o then o[k] else JNull
  }

  /** The items of a list under their decimal indices, as an object spread sees them. */
  function IndexKeyed(xs: seq<Json>): (m: map<string, Json>)
    ensures forall i :: 0 <= i < |xs| ==> DecimalString(i) in m && m[DecimalString(i)] == xs[i]
    ensures forall k :: k in m ==> exists i :: 0 <= i < |xs| && DecimalString(i) == k
  {
    assert forall i, j :: 0 <= i < |xs| && 0 <= j < |xs| && DecimalString(i) == DecimalString(j) ==> i == j by {
      forall i, j | 0 <= i < |xs| && 0 <= j < |xs| && DecimalString(i) == DecimalString(j) ensures i == j {
        DecimalInjective(i, j);
      }
    }
    map i | 0 <= i < |xs| :: DecimalString(i) := xs[i]
  }

  /** The properties `{...v}` copies: an object's fields, an array's items or a string's
      characters under their indices, and nothing for null, booleans and numbers. */
  function Spread(v: Json): (m: map<string, Json>)
    ensures v.JObj? ==> m == v.fields
    ensures v.JArr? ==> m == IndexKeyed(v.items)
    ensures v.JStr? ==> forall i :: 0 <= i < |v.s| ==> DecimalString(i) in m && m[DecimalString(i)] == JStr([v.s[i]])
    ensures v.JNull? || v.JBool? || v.JNum? ==> m == map[]
  {
    match v
    case JObj(f) => f
    case JArr(xs) => IndexKeyed(xs)
    case JStr(s) => IndexKeyed(seq(|s|, i requires 0 <= i < |s| => JStr([s[i]])))
    case _ => map[]
  }

  // ---------------------------------------------------------------------------
  // The lint scripts and the default devDependencies

  const LintScript := "eslint ."
  const LintFixScript := "eslint . --fix"

  /** { ...packageJson.scripts, lint: "eslint .", "lint:fix": "eslint . --fix" } */
  function LintScripts(current: Json): map<string, Json>
  {
    Spread(current)["lint" := JStr(LintScript)]["lint:fix" := JStr(LintFixScript)]
  }

  /** The eight defaults, in the order the merge applies them. */
  const BaseDevDependencies: seq<(string, string)> :=
    [ ("eslint", "^8.0.0"),
      ("eslint-plugin-react-hooks", "^4.0.0"),
      ("eslint-plugin-react-refresh", "^0.4.0"),
      ("eslint-plugin-prettier", "^4.0.0"),
      ("eslint-config-prettier", "^8.0.0"),
      ("prettier", "^2.0.0"),
      ("@eslint/js", "^8.0.0"),
      ("globals", "^13.0.0") ]

  const TsEslintName := "typescript-eslint"
  const TsEslintVersion := "^7.0.0"

  /** The defaults the merge fills in: typescript-eslint comes last, for TypeScript only. */
  function DevDefaults(isTs: bool): seq<(string, string)>
  {
    BaseDevDependencies + if isTs then [(TsEslintName, TsEslintVersion)] else []
  }

  predicate DistinctNames(d: seq<(string, string)>)
  {
    forall i, j :: 0 <= i < j < |d| ==> d[i].0 != d[j].0
  }

  /** The defaults as a name-to-version table. */
  function DefaultTable(d: seq<(string, string)>): (t: map<string, string>)
    requires DistinctNames(d)
    ensures forall i :: 0 <= i < |d| ==> d[i].0 in t && t[d[i].0] == d[i].1
    ensures forall k :: k in t ==> exists i :: 0 <= i < |d| && d[i].0 == k
    decreases |d|
  {
    if |d| == 0 then map[]
    else
      var n := |d| - 1;
      assert forall j :: 0 <= j < n ==> d[..n][j] == d[j];
      DefaultTable(d[..n])[d[n].0 := d[n].1]
  }

  /** No default is listed twice and every default version is a non-empty string. */
  lemma DevDefaultsWellFormed(isTs: bool)
    ensures DistinctNames(DevDefaults(isTs))
    ensures forall i :: 0 <= i < |DevDefaults(isTs)| ==> DevDefaults(isTs)[i].1 != ""
    ensures |DevDefaults(isTs)| == if isTs then 9 else 8
  {
  }

  /** The table of defaults for a template kind. */
  function DevTable(isTs: bool): map<string, string>
  {
    DevDefaultsWellFormed(isTs);
    DefaultTable(DevDefaults(isTs))
  }

  lemma TablePrefixStep(d: seq<(string, string)>, i: nat)
    requires DistinctNames(d) && i < |d|
    ensures DistinctNames(d[..i]) && DistinctNames(d[..i + 1])
    ensures d[i].0 !in DefaultTable(d[..i])
    ensures DefaultTable(d[..i + 1]) == DefaultTable(d[..i])[d[i].0 := d[i].1]
  {
    assert d[..i + 1][..i] == d[..i];
    assert forall j :: 0 <= j < i ==> d[..i][j] == d[j];
  }

  /** A table of distinct names has one entry per default. */
  lemma {:induction false} DistinctSize(d: seq<(string, string)>)
    requires DistinctNames(d)
    ensures |DefaultTable(d)| == |d|
    decreases |d|
  {
    if |d| > 0 {
      var n := |d| - 1;
      TablePrefixStep(d, n);
      assert d[..n + 1] == d;
      DistinctSize(d[..n]);
    }
  }

  /** The table holds eight defaults, nine for TypeScript. */
  lemma DevTableSize(isTs: bool)
    ensures |DevTable(isTs)| == if isTs then 9 else 8
  {
    DevDefaultsWellFormed(isTs);
    DistinctSize(DevDefaults(isTs));
  }

  /** Every default version is a non-empty string, so a filled entry is truthy. */
  lemma DevTableVersions(isTs: bool)
    ensures forall k :: k in DevTable(isTs) ==> DevTable(isTs)[k] != ""
  {
    DevDefaultsWellFormed(isTs);
    var d := DevDefaults(isTs);
    forall k | k in DevTable(isTs) ensures DevTable(isTs)[k] != "" {
      var i :| 0 <= i < |d| && d[i].0 == k;
    }
  }

  /** typescript-eslint is among the defaults exactly for TypeScript. */
  lemma DevTableTsEslint(isTs: bool)
    ensures TsEslintName in DevTable(isTs) <==> isTs
    ensures isTs ==> DevTable(isTs)[TsEslintName] == TsEslintVersion
  {
    DevDefaultsWellFormed(isTs);
    var d := DevDefaults(isTs);
    assert forall i :: 0 <= i < 8 ==> d[i].0 != TsEslintName;
    if isTs {
      assert d[8] == (TsEslintName, TsEslintVersion);
    }
  }

  /** devDependencies after the defaults of table t have been filled into the object f:
      a default replaces a missing or falsy entry, a truthy entry stays, other entries
      stay. */
  function FilledDeps(f: map<string, Json>, t: map<string, string>): (r: map<string, Json>)
    ensures r.Keys == f.Keys + t.Keys
  {
    map k | k in f.Keys + t.Keys ::
      if k in t && !(k in f && Truthy(f[k])) then JStr(t[k]) else f[k]
  }

  /** devDependencies[k] = devDependencies[k] || v, on an object. */
  function FillOne(f: map<string, Json>, k: string, v: string): map<string, Json>
  {
    f[k := if k in f && Truthy(f[k]) then f[k] else JStr(v)]
  }

  /** Filling one more default is one more FillOne on the table so far. */
  lemma FillStep(f: map<string, Json>, t: map<string, string>, k: string, v: string)
    requires k !in t
    ensures FilledDeps(f, t[k := v]) == FillOne(FilledDeps(f, t), k, v)
  {
  }

  /** One statement of that run takes the filled object from one prefix of the defaults
      to the next. */
  lemma FillNext(f: map<string, Json>, d: seq<(string, string)>, i: nat, deps: map<string, Json>)
    requires DistinctNames(d) && i < |d| && DistinctNames(d[..i])
    requires deps == FilledDeps(f, DefaultTable(d[..i]))
    ensures DistinctNames(d[..i + 1])
    ensures FillOne(deps, d[i].0, d[i].1) == FilledDeps(f, DefaultTable(d[..i + 1]))
  {
    TablePrefixStep(d, i);
    FillStep(f, DefaultTable(d[..i]), d[i].0, d[i].1);
  }

  /** The run of `devDependencies[k] = devDependencies[k] || v` statements, one per
      default in order, on a devDependencies object. */
  method FillDefaults(f: map<string, Json>, defaults: seq<(string, string)>) returns (deps: map<string, Json>)
    requires DistinctNames(defaults)
    ensures deps == FilledDeps(f, DefaultTable(defaults))
  {
    deps := f;
    var i := 0;
    assert defaults[..0] == [];
    while i < |defaults|
      invariant 0 <= i <= |defaults|
      invariant DistinctNames(defaults[..i])
      invariant deps == FilledDeps(f, DefaultTable(defaults[..i]))
    {
      var name, version := defaults[i].0, defaults[i].1;
      FillNext(f, defaults, i, deps);
      deps := deps[name := if name in deps && Truthy(deps[name]) then deps[name] else JStr(version)];
      i := i + 1;
    }
    assert defaults[..i] == defaults;
  }

  /** The devDependencies value after the merge: a falsy value becomes {}, an object is
      filled, and any other truthy value (a string, a number, true, an array) stays as it
      is, since assignments to its properties are lost. */
  function NewDevDependencies(isTs: bool, dev: Json): Json
  {
    var start := if Truthy(dev) then dev else JObj(map[]);
    match start
    case JObj(f) => JObj(FilledDeps(f, DevTable(isTs)))
    case _ => start
  }

  /** What the try block produces from the parsed package.json: the rewritten value, or
      the TypeError JavaScript throws when the root is null or a primitive. */
  datatype Merge = Merged(json: Json) | TypeError

  /** The merge on a parsed value. Properties set on an array are not serialised, so an
      array is written back as it was read. */
  function MergedPackage(isTs: bool, root: Json): (r: Merge)
    ensures r.TypeError? <==> !(root.JObj? || root.JArr?)
    ensures root.JArr? ==> r == Merged(root)
    ensures root.JObj? ==> r.Merged? && r.json.JObj?
  {
    match root
    case JObj(o) =>
      var scripts := JObj(LintScripts(Field(o, "scripts")));
      var dev := NewDevDependencies(isTs, Field(o, "devDependencies"));
      Merged(JObj(o["scripts" := scripts]["devDependencies" := dev]))
    case JArr(_) => Merged(root)
    case _ => TypeError
  }

  /** The try block of setupESLint on the parsed package.json: the object is updated in
      place, scripts first, then devDependencies one default at a time. */
  method MergeLintFields(isTs: bool, root: Json) returns (r: Merge)
    ensures r == MergedPackage(isTs, root)
  {
    if root.JArr? {
      return Merged(root);
    }
    if !root.JObj? {
      return TypeError;
    }
    var pkg := root.fields;
    var scripts := LintScripts(Field(pkg, "scripts"));
    pkg := pkg["scripts" := JObj(scripts)];
    assert Field(pkg, "devDependencies") == Field(root.fields, "devDependencies");
    var dev := FillDevDependencies(isTs, Field(pkg, "devDependencies"));
    pkg := pkg["devDependencies" := dev];
    r := Merged(JObj(pkg));
  }

  /** The devDependencies step of the try block: a falsy value is replaced by {}, and an
      object is filled in place with the defaults. */
  method FillDevDependencies(isTs: bool, current: Json) returns (dev: Json)
    ensures dev == NewDevDependencies(isTs, current)
  {
    dev := current;
    if !Truthy(dev) {
      dev := JObj(map[]);
    }
    if dev.JObj? {
      DevDefaultsWellFormed(isTs);
      var deps := FillDefaults(dev.fields, DevDefaults(isTs));
      dev := JObj(deps);
    }
  }

  // ---------------------------------------------------------------------------
  // What the merge promises

  /** Every top-level key other than scripts and devDependencies keeps its value, and no
      key is added besides those two. */
  lemma MergeKeepsOtherKeys(isTs: bool, o: map<string, Json>)
    ensures MergedPackage(isTs, JObj(o)).json.fields.Keys == o.Keys + {"scripts", "devDependencies"}
    ensures forall k :: k in o && k != "scripts" && k != "devDependencies"
              ==> MergedPackage(isTs, JObj(o)).json.fields[k] == o[k]
  {
  }

  /** Existing scripts survive except lint and lint:fix, which are always set. */
  lemma MergeSetsLintScripts(isTs: bool, o: map<string, Json>)
    ensures var n := MergedPackage(isTs, JObj(o)).json.fields;
      n["scripts"].JObj? && n["scripts"].fields.Keys == Spread(Field(o, "scripts")).Keys + {"lint", "lint:fix"}
    ensures var s := MergedPackage(isTs, JObj(o)).json.fields["scripts"].fields;
      s["lint"] == JStr("eslint .") && s["lint:fix"] == JStr("eslint . --fix")
    ensures var s := MergedPackage(isTs, JObj(o)).json.fields["scripts"].fields;
      forall k :: k in Spread(Field(o, "scripts")) && k != "lint" && k != "lint:fix"
        ==> s[k] == Spread(Field(o, "scripts"))[k]
  {
    ScriptsField(isTs, o);
    LintScriptsKeys(Field(o, "scripts"));
    LintScriptsValues(Field(o, "scripts"));
    LintScriptsOthers(Field(o, "scripts"));
  }

  /** The scripts the merge stores are LintScripts of the old ones. */
  lemma ScriptsField(isTs: bool, o: map<string, Json>)
    ensures MergedPackage(isTs, JObj(o)).json.fields["scripts"] == JObj(LintScripts(Field(o, "scripts")))
  {
  }

  /** LintScripts adds lint and lint:fix to the spread scripts, */
  lemma LintScriptsKeys(current: Json)
    ensures LintScripts(current).Keys == Spread(current).Keys + {"lint", "lint:fix"}
  {
  }

  /** sets them to the eslint commands, */
  lemma LintScriptsValues(current: Json)
    ensures LintScripts(current)["lint"] == JStr("eslint .")
    ensures LintScripts(current)["lint:fix"] == JStr("eslint . --fix")
  {
  }

  /** and keeps every other script. */
  lemma LintScriptsOthers(current: Json)
    ensures forall k :: k in Spread(current) && k != "lint" && k != "lint:fix"
                   ==> LintScripts(current)[k] == Spread(current)[k]
  {
  }

  /** On an existing devDependencies object each default keeps a truthy version and
      otherwise gets its default (so "" is replaced); other entries are untouched and
      nothing else is added. */
  lemma MergeFillsDefaults(isTs: bool, o: map<string, Json>, f: map<string, Json>)
    requires Field(o, "devDependencies") == JObj(f)
    ensures MergedPackage(isTs, JObj(o)).json.fields["devDependencies"].JObj?
    ensures var n := MergedPackage(isTs, JObj(o)).json.fields["devDependencies"].fields;
      n.Keys == f.Keys + DevTable(isTs).Keys
    ensures var n := MergedPackage(isTs, JObj(o)).json.fields["devDependencies"].fields;
      forall k :: k in DevTable(isTs) ==>
        n[k] == if k in f && Truthy(f[k]) then f[k] else JStr(DevTable(isTs)[k])
    ensures var n := MergedPackage(isTs, JObj(o)).json.fields["devDependencies"].fields;
      forall k :: k in f && k !in DevTable(isTs) ==> n[k] == f[k]
  {
  }

  /** A missing or falsy devDependencies becomes an object holding exactly the defaults. */
  lemma MergeCreatesDevDependencies(isTs: bool, o: map<string, Json>)
    requires !Truthy(Field(o, "devDependencies"))
    ensures MergedPackage(isTs, JObj(o)).json.fields["devDependencies"]
         == JObj(map k | k in DevTable(isTs) :: JStr(DevTable(isTs)[k]))
  {
  }

  /** A devDependencies that is truthy but no object (a string, a number, true, an array)
      is written back unchanged. */
  lemma MergeKeepsOddDevDependencies(isTs: bool, o: map<string, Json>)
    requires Truthy(Field(o, "devDependencies")) && !Field(o, "devDependencies").JObj?
    ensures MergedPackage(isTs, JObj(o)).json.fields["devDependencies"] == o["devDependencies"]
  {
  }

  /** typescript-eslint is added only for TypeScript: without it the entry is what it
      was (present only if the package already had it); with it, an object holds it. */
  lemma TsEslintOnlyForTs(o: map<string, Json>)
    ensures var dev := MergedPackage(false, JObj(o)).json.fields["devDependencies"];
      var before := Field(o, "devDependencies");
      dev.JObj? && before.JObj? ==> (TsEslintName in dev.fields <==> TsEslintName in before.fields)
    ensures var dev := MergedPackage(false, JObj(o)).json.fields["devDependencies"];
      !Truthy(Field(o, "devDependencies")) ==> dev.JObj? && TsEslintName !in dev.fields
    ensures var dev := MergedPackage(true, JObj(o)).json.fields["devDependencies"];
      dev.JObj? ==> TsEslintName in dev.fields && Truthy(dev.fields[TsEslintName])
  {
    DevField(false, o);
    DevField(true, o);
    DevTableTsEslint(false);
    DevTableTsEslint(true);
    DevTableVersions(true);
    var before := Field(o, "devDependencies");
    var start := if Truthy(before) then before else JObj(map[]);
    if start.JObj? {
      FilledTruthy(start.fields, DevTable(true));
    }
  }

  /** The merge puts the filled devDependencies under its key. */
  lemma DevField(isTs: bool, o: map<string, Json>)
    ensures MergedPackage(isTs, JObj(o)).json.fields["devDependencies"]
         == NewDevDependencies(isTs, Field(o, "devDependencies"))
  {
  }

  /** After filling, every default entry is truthy. */
  lemma FilledTruthy(f: map<string, Json>, t: map<string, string>)
    requires forall k :: k in t ==> t[k] != ""
    ensures forall k :: k in t ==> Truthy(FilledDeps(f, t)[k])
  {
  }

  /** Filling twice fills nothing more. */
  lemma FilledIdempotent(f: map<string, Json>, t: map<string, string>)
    requires forall k :: k in t ==> t[k] != ""
    ensures FilledDeps(FilledDeps(f, t), t) == FilledDeps(f, t)
  {
    FilledTruthy(f, t);
  }

  /** Setting the lint scripts again changes nothing. */
  lemma LintScriptsIdempotent(current: Json)
    ensures LintScripts(JObj(LintScripts(current))) == LintScripts(current)
  {
  }

  /** Filling devDependencies again changes nothing. */
  lemma NewDevDependenciesIdempotent(isTs: bool, dev: Json)
    ensures NewDevDependencies(isTs, NewDevDependencies(isTs, dev)) == NewDevDependencies(isTs, dev)
  {
    var start := if Truthy(dev) then dev else JObj(map[]);
    var once := NewDevDependencies(isTs, dev);
    if start.JObj? {
      var t := DevTable(isTs);
      assert once == JObj(FilledDeps(start.fields, t));
      DevTableVersions(isTs);
      FilledIdempotent(start.fields, t);
      assert NewDevDependencies(isTs, once) == JObj(FilledDeps(FilledDeps(start.fields, t), t));
    } else {
      assert once == start && Truthy(start);
    }
  }

  /** Running the merge on its own output changes nothing. */
  lemma MergeIdempotent(isTs: bool, root: Json)
    requires MergedPackage(isTs, root).Merged?
    ensures MergedPackage(isTs, MergedPackage(isTs, root).json) == MergedPackage(isTs, root)
  {
    if root.JObj? {
      var o := root.fields;
      var scripts := LintScripts(Field(o, "scripts"));
      var dev := NewDevDependencies(isTs, Field(o, "devDependencies"));
      var n := o["scripts" := JObj(scripts)]["devDependencies" := dev];
      assert MergedPackage(isTs, root).json == JObj(n);
      LintScriptsIdempotent(Field(o, "scripts"));
      NewDevDependenciesIdempotent(isTs, Field(o, "devDependencies"));
      UpdateBoth(o, "scripts", JObj(scripts), "devDependencies", dev);
    }
  }

  /** Setting two distinct keys leaves their values in place, and setting them again to
      the same values changes nothing. */
  lemma UpdateBoth(o: map<string, Json>, k1: string, v1: Json, k2: string, v2: Json)
    requires k1 != k2
    ensures var n := o[k1 := v1][k2 := v2];
      Field(n, k1) == v1 && Field(n, k2) == v2 && n[k1 := v1][k2 := v2] == n
  {
  }

  // ---------------------------------------------------------------------------
  // setupESLint

  datatype FileWrite = TextFile(path: string, text: string) | JsonFile(path: string, json: Json)

  /** The three files written before package.json is touched. */
  function ConfigWrites(isTs: bool, exportBlock: string): (w: seq<FileWrite>)
    ensures |w| == 3
    ensures w[0] == TextFile("eslint.config.js", ConfigFileText(isTs, exportBlock))
    ensures w[1].path == ".prettierrc" && w[2] == TextFile(".eslintignore", EslintIgnore)
  {
    [TextFile("eslint.config.js", ConfigFileText(isTs, exportBlock)),
     TextFile(".prettierrc", PrettierConfig),
     TextFile(".eslintignore", EslintIgnore)]
  }

  /** setupESLint(template): the three config files are written, then package.json is
      read, merged and written back. `read` is what readJson yields (None when the file
      is missing or not JSON) and `writeOk` whether writeJson succeeds. A failed read, a
      TypeError or a failed write is caught and only reported as a warning. */
  method SetupESLint(template: string, exportBlock: string, read: Option<Json>, writeOk: bool)
    returns (writes: seq<FileWrite>, warned: bool)
    ensures |writes| == 3 || |writes| == 4
    ensures writes[..3] == ConfigWrites(IsTs(template), exportBlock)
    ensures warned <==> |writes| == 3
    ensures !warned <==> read.Some? && MergedPackage(IsTs(template), read.value).Merged? && writeOk
    ensures !warned ==> writes[3] == JsonFile("package.json", MergedPackage(IsTs(template), read.value).json)
  {
    var isTs := IsTs(template);
    writes := ConfigWrites(isTs, exportBlock);
    warned := false;
    if read.None? {
      warned := true;
      return;
    }
    var merged := MergeLintFields(isTs, read.value);
    if merged.TypeError? || !writeOk {
      warned := true;
      return;
    }
    writes := writes + [JsonFile("package.json", merged.json)];
  }
}
