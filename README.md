# codegen-cli core, modelled in Dafny

codegen-cli scaffolds a Tauri desktop app and then adds optional features to it:
Redux Toolkit, React Router, ESLint with Prettier, and a front-end/back-end API example.
This project models the parts of it that decide what gets written, installed and run:

- `version.dfy` (module `Version`): `compareVersion`, a numeric comparison of dotted
  version strings. The loop is a method, proved against a recursive comparison `Cmp`.
  `Cmp` is shown to be a total order that ignores trailing zero components, reads
  non-numeric components as 0, and compares components as numbers, not as text.
- `router.dfy` (module `Router`): the App-file patch of `setupRouter`. The App file is
  read, or a fallback App is used when it cannot be read. If both router markers are
  present, the file is left alone. Otherwise the router import is added, one of five
  edits is chosen, and the trimmed result is written. The regular expressions the patch
  uses are modelled as leftmost-match functions with their backtracking spelled out.
- `eslint.dfy` (module `ESLint`): `setupESLint`. It covers:
  - the import list, filtered and joined into `eslint.config.js`;
  - the fixed `.prettierrc` and `.eslintignore`;
  - the `package.json` merge, over a JSON value type with JavaScript truthiness, object
    spread and sloppy-mode property writes;
  - the catch that turns any failure into a warning.
- `create.dfy` (module `Create`): `createProject` and `createApiExample`.
  - A `Process` object keeps the working directory and a log of attempted actions.
  - One configurable step throws. Nothing catches it, so the rest of the run is skipped.
  - `CreateProject` is proved to perform exactly `Plan`. Lemmas about `Plan` cover:
    - the order of steps;
    - where each step runs;
    - what a completed or failed run leaves behind.
- `jstext.dfy` (module `JsText`): the JavaScript string operations these use:
  `split`, `join`, `indexOf`/`includes`, `replace` with a string, `trim`, and `Number()`
  on the strings a version component can be.

## Model

| member | source | states |
|---|---|---|
| Version.Cmp | src/utils/version.js:4-9 | the comparison result is always -1, 0 or 1 |
| Version.CompareVersion | src/utils/version.js:1-10 | the index loop with its early returns yields Cmp of the two component lists, hence -1, 0 or 1 |
| Version.FirstDifferenceDecides | src/utils/version.js:4-8 | the first index where the components (missing or NaN counting as 0) differ decides the result; later components are not consulted |
| Version.CmpIsLexicographic | src/utils/version.js:4-9 | result 1 iff some index has a greater component with all earlier ones equal; -1 likewise with a smaller one; 0 iff every component agrees |
| Version.AgreeingCompareEqual | src/utils/version.js:9 | versions that agree on every component (with 0 padding) compare equal |
| Version.EqualCompareAgrees | src/utils/version.js:4-9 | versions that compare equal agree on every component |
| Version.CompareReflexive | src/utils/version.js:1-10 | compareVersion(a, a) is 0 |
| Version.CmpAntisymmetric | src/utils/version.js:6-7 | swapping the arguments negates the result |
| Version.CmpTransitive | src/utils/version.js:1-10 | a <= b and b <= c give a <= c |
| Version.CmpRespectsValues | src/utils/version.js:5 | only the component values after `|| 0` matter |
| Version.ComponentsAround | src/utils/version.js:2-3 | the components of "v.w" are those of v followed by those of w |
| Version.TrailingZeroIgnored | src/utils/version.js:4-5 | v + ".0" compares equal to v: a missing component counts as 0 |
| Version.NonNumericCountsAsZero | src/utils/version.js:2-5 | a component that Number() makes NaN counts as 0, so "1.beta" equals "1.0" |
| Version.NumericNotTextual | src/utils/version.js:2-7 | "1.10" is newer than "1.9": components compare as numbers |
| Router.SetupRouterApp | src/templates/router.js:97-200 | the step-by-step patch of the App text writes exactly PatchedApp of the file's text, or of the fallback App when the file cannot be read |
| Router.AddImport | src/templates/router.js:127-139 | the import step on the App text gives WithRouterImport: unchanged when the import is present, else inserted after `import React ...;` or at the top |
| Router.InsertRouter | src/templates/router.js:141-193 | the rendering step on the App text applies the edit ChooseEdit picks: one of the two placeholders, the generic div, the Provider body, or the minimal App |
| Router.SetupRouter | src/templates/router.js:5-200 | as written: it writes the Home and About pages, the routes index and the App at the paths RouterPaths gives, and the App text it writes is PatchedApp of the file, or of the fallback App when the file cannot be read (so a missing App yields no write, see Findings) |
| Router.RouterPathsFollowTemplate | src/templates/router.js:6-9 | each of the four files (src/pages/Home, src/pages/About, src/routes/index, src/App) ends in `.tsx` exactly for the react-ts template and in `.jsx` otherwise |
| Router.CorrectedSetupRouter | src/templates/router.js:97-125 | corrected: the same four paths, and the App write is the corrected one, so a missing App file is created as the minimal App |
| Router.RouterImportAdded | src/templates/router.js:127-139 | after the import step the router import is in the text |
| Router.ImportAfterReact | src/templates/router.js:130-135 | with a line starting `import React ...;`, a newline and the router import are inserted right after the first occurrence of the matched statement's text (which ends with its `;` and may lie before the statement itself) |
| Router.ImportAtTop | src/templates/router.js:136-138 | without one, the router import becomes the first line |
| Router.ImportInsertion | src/templates/router.js:129-139 | a missing import is inserted whole and nothing else changes: as the first line followed by a newline, or preceded by a newline right after a `;` |
| Router.EditChosenOnOriginal | src/templates/router.js:141-181 | adding the import never changes which of the five edits is chosen |
| Router.CanonicalAppRouted | src/templates/router.js:183-192 | the minimal App holds both markers of a routed App |
| Router.RawTemplatesTrim | src/templates/router.js:105-114 | both App template literals trim to the same minimal App |
| Router.WithoutProviderReplaced | src/templates/router.js:182-193 | an unrouted App without the Redux Provider is replaced wholesale by the minimal App |
| Router.PatchIdempotent | src/templates/router.js:117-125 | after the rtk-placeholder, welcome-placeholder or minimal-App edit, the written App is routed, and patching it again writes nothing |
| Router.ProviderInjectionAddsTag | src/templates/router.js:171-175 | whenever the Provider-body rewrite matches, its result holds `<AppRouter />` |
| Router.WrittenTrimmed | src/templates/router.js:194 | the written text is trimmed |
| Router.MissingAppNeverWritten | src/templates/router.js:99-125 | as written: when the App file cannot be read, nothing is written |
| Router.CorrectedCreatesMissingApp | src/templates/router.js:99-115 | corrected: a missing App file is created as the minimal App, which is routed, so a later run leaves it alone |
| Router.RtkAppTakesProviderRewrite | src/templates/rtk.js:72-89 | on the App the rtk feature writes, the patch is not skipped and takes the Provider-body rewrite |
| Router.RtkAppPatchedWithRouter | src/templates/router.js:127-194 | the App the rtk feature writes is patched and written, and the written text holds `<AppRouter />` |
| Router.ProviderBlockMatches | src/templates/router.js:172-175 | the Provider pattern matches a `<Provider store={store}>` block whose body holds no `<`, from its opening tag through its closing tag |
| ESLint.ImportLinesTs | src/utils/eslint.js:12-22 | for react-ts the config imports are exactly the seven lines, with typescript-eslint fifth |
| ESLint.ImportLinesJs | src/utils/eslint.js:12-22 | otherwise they are the same six lines without it |
| ESLint.FilterMembers | src/utils/eslint.js:21 | `.filter(Boolean)` keeps exactly the present, non-empty entries |
| ESLint.ImportLinesUnbroken | src/utils/eslint.js:13-19 | no import line contains a line break |
| ESLint.ImportListShape | src/utils/eslint.js:12-22 | seven imports for react-ts, six otherwise; the typescript-eslint import is present iff react-ts |
| ESLint.ConfigLines | src/utils/eslint.js:76-79 | eslint.config.js, split into lines, is the imports, one blank line, the export block's lines and a final empty line; joining them gives the file back |
| ESLint.EslintIgnoreLines | src/utils/eslint.js:96-102 | .eslintignore lists node_modules, dist, build and src-tauri, one per line |
| ESLint.FillDefaults | src/utils/eslint.js:112-132 | the run of `dev[k] = dev[k] \|\| v` assignments gives FilledDeps of the defaults table |
| ESLint.MergedPackage | src/utils/eslint.js:105-133 | a non-object package.json raises a TypeError, an array is written back unchanged, and an object gives a merged object |
| ESLint.MergeLintFields | src/utils/eslint.js:106-132 | the in-place updates of the parsed package.json give MergedPackage |
| ESLint.FillDevDependencies | src/utils/eslint.js:112-132 | a falsy devDependencies is replaced by {}, and an object is filled with the defaults, giving NewDevDependencies |
| ESLint.MergeKeepsOtherKeys | src/utils/eslint.js:107-132 | every top-level key other than scripts and devDependencies keeps its value, and no key is removed |
| ESLint.MergeSetsLintScripts | src/utils/eslint.js:107-111 | existing scripts survive except lint and lint:fix, which are set to `eslint .` and `eslint . --fix` |
| ESLint.MergeFillsDefaults | src/utils/eslint.js:113-132 | in an existing devDependencies object each default keeps a truthy version or gets the default, and other entries are unchanged |
| ESLint.MergeCreatesDevDependencies | src/utils/eslint.js:112 | a missing or falsy devDependencies becomes an object holding exactly the defaults |
| ESLint.MergeKeepsOddDevDependencies | src/utils/eslint.js:112-132 | a truthy devDependencies that is not an object is left as it is |
| ESLint.TsEslintOnlyForTs | src/utils/eslint.js:129-132 | typescript-eslint is filled in only for react-ts |
| ESLint.DevTableSize | src/utils/eslint.js:113-132 | eight defaults, nine for react-ts |
| ESLint.DevTableTsEslint | src/utils/eslint.js:129-132 | typescript-eslint ^7.0.0 is a default exactly for react-ts |
| ESLint.FilledTruthy | src/utils/eslint.js:113-128 | after filling, every default entry is truthy |
| ESLint.MergeIdempotent | src/utils/eslint.js:105-133 | merging package.json a second time changes nothing |
| ESLint.ConfigWrites | src/utils/eslint.js:76-102 | eslint.config.js, .prettierrc and .eslintignore are written in that order, with the config text |
| ESLint.SetupESLint | src/utils/eslint.js:5-141 | the three config files are always written; package.json is written with the merged value exactly when the read, the merge and the write succeed; otherwise only a warning |
| Create.Process.Run | src/commands/create.js:10-56 | one statement: skipped once an exception propagates; the failing one is attempted and throws; a chdir changes the directory |
| Create.CollectDependencies | src/commands/create.js:23-29 | the pushes give Dependencies(features) |
| Create.RunInstall | src/commands/create.js:23-32 | npm install of the collected list is attempted exactly when the list is non-empty |
| Create.DependencyList | src/commands/create.js:23-29 | the Redux pair is installed iff rtk is selected, react-router-dom iff router is, the pair first |
| Create.NpmOnlyWhenNeeded | src/commands/create.js:30-32 | npm install runs iff the dependency list is non-empty, as the third step, with that list |
| Create.CreateApiExample | src/commands/create.js:58-88 | the two example files are written one after the other, stopping at a failure |
| Create.ApiPaths | src/commands/create.js:83-87 | the front-end file is src/api/index.ts iff the template is react-ts, else index.js; the back-end file is always src-tauri/src/commands.rs |
| Create.RunFeatureSetups | src/commands/create.js:35-48 | the selected setups run as FeatureSteps |
| Create.FinishRun | src/commands/create.js:50-55 | the .gitignore append, the chdir back and the progress check run in that order, stopping at a throw |
| Create.CreateProject | src/commands/create.js:10-56 | the run performs exactly Plan: scaffold, chdir, install, setups, .gitignore, chdir back, progress check, stopping at the first throw |
| Create.ExecCompletes | src/commands/create.js:10-56 | with no failing step every action completes and is logged in the directory it ran in |
| Create.ExecStopsAt | src/commands/create.js:10-56 | with a failing step, the steps before it complete, it is attempted, and nothing after it runs |
| Create.TraceDirs | src/commands/create.js:18-19 | each logged action ran in the directory the actions before it left |
| Create.PlanLandmarks | src/commands/create.js:16-55 | scaffold first, chdir into the project second, then .gitignore, chdir back and the progress check last; no other step changes directory or checks progress |
| Create.PlanCwd | src/commands/create.js:18-52 | from the chdir into the project up to the chdir back the run is in the project directory, otherwise in the starting directory |
| Create.CompletedRun | src/commands/create.js:10-56 | a run with no failure ends in the starting directory; every step from npm install through the chdir back runs in the project directory, and the progress check runs back home |
| Create.FailedRun | src/commands/create.js:10-56 | a throw ends the run: nothing after it is attempted, no progress check, and the directory is not restored if the throw comes between the two chdirs |
| Create.SetupsInFixedOrder | src/commands/create.js:35-50 | setups run as rtk, router, eslint, api, whatever the order of the selection, and all of them before the .gitignore append |
| Create.FeatureRanks | src/commands/create.js:35-48 | within the feature steps the feature order never goes back |
| Create.SelectionOrderIrrelevant | src/commands/create.js:23-48 | two selections with the same known features give the same run up to the progress check; other values have no effect |
| Create.GitignoreLines | src/commands/create.js:50 | the .gitignore addition starts on a new line and adds package-lock.json and yarn.lock |

## Left out

- Shell commands (the `curl ... | sh` scaffold and `npm install`), console output and
  colours are abstract actions or left out. Only the package list of the install is kept.
- The bodies of the generated files are not modelled: the page, routes, store, the two
  API examples and the ESLint export block. The export block is a parameter. The
  `.prettierrc` text is kept as a constant.
- The setup calls inside `createProject` are single actions that either complete or
  throw. Their internals are modelled separately in `Router` and `ESLint`.
  `setupRTK` and the zustand, husky and progress-check utilities are not part of this
  model, except that rtk's App text is used as the input of one router scenario.
- `index.js` (the command-line front end and its prompts) is not part of this model.
- `Version.CompareVersion`: `Number()` is modelled for trimmed, optionally signed
  decimal digit strings and the empty string. Exponents, hexadecimal, `Infinity` and
  other numeric literals are read as NaN, which differs from JavaScript. A digit run
  is read as its exact integer value, whereas JavaScript rounds it to the nearest
  double: components above 2^53 can compare differently
  (`compareVersion("9007199254740993", "9007199254740992")` is 0 in JavaScript and 1
  here), and components past about 1.8e308 become `Infinity` in JavaScript.
- `Router.SetupRouterApp`: `$` patterns in replacement strings are not interpreted.
  None of the literal replacements contains one. The `$1`/`$3` of the Provider
  rewrite are spelled out. The import step's replacement, however, is the matched
  `import React ...;` text from the App file followed by the import: a `$$`, `$&`,
  `` $` `` or `$'` inside that statement would be expanded by JavaScript and is taken
  literally here.
- `Router.PatchIdempotent`: stated only for the rtk-placeholder, welcome-placeholder and
  minimal-App edits. On contrived inputs the generic-div edit's clean-up regex can
  remove the `<AppRouter />` it has just inserted. The Provider-body rewrite only
  proves that it inserts the tag.
- The rtk feature writes `src/App.tsx` whatever the template. For a JavaScript template
  the router then patches `src/App.jsx`, so the rtk scenario only applies to react-ts.
- `ESLint.MergedPackage`:
  - JSON objects are maps, so key order in the written package.json is not modelled;
  - numbers are integers;
  - `__proto__` keys and getters are not modelled;
  - `fs.readJson` failure (missing file, invalid JSON) is one case.
- `ESLint.SetupESLint`: a failure while writing one of the three config files throws
  out of setupESLint. That is modelled as the `SetupEslint` step failing in `Create`,
  not inside this method.
- `Create.CreateProject`: paths are POSIX strings joined with `/`, with no `..` or `.`
  normalisation. `process.cwd()` is assumed to be absolute. The timing of asynchronous
  steps is not modelled, because each is awaited in turn.

## Findings

| source | as written | input that shows it | evidently intended | confidence | as-written member | corrected member |
|---|---|---|---|---|---|---|
| src/templates/router.js:99-125 | when `src/App.tsx`/`.jsx` cannot be read, it warns "Creating a new one", but the fallback text already holds both router markers, so the patch is skipped and no file is written | a project without an App file, with the router feature | the fallback App is written to the App file | not executed | Router.MissingAppNeverWritten | Router.CorrectedCreatesMissingApp |
