/** setupRouter's patch of the application entry file src/App.{jsx,tsx}: add the
    AppRouter import, put <AppRouter /> where the existing App renders its content, or
    replace the file with a minimal App that renders the router. */
module Router {
  import opened JsText

  // ---------------------------------------------------------------------------
  // The texts the patch looks for and inserts

  /** Together with RouterTag, the marker of an App file that already uses the router. */
  const ImportMarker := "import AppRouter from "
  const RouterTag := "<AppRouter />"
  /** The import line the patch adds. */
  const RouterImport := ImportMarker + "'./routes';" + " // Will resolve .jsx or .tsx"
  /** The Redux Provider the rtk feature wraps the App in. */
  const ProviderTag := "<Provider store={store}>"
  const ProviderClose := "</Provider>"
  const RtkPlaceholder := "{/* Your existing app structure" + " or <AppRouter /> if using router */}"
  const WelcomePlaceholder :=
    "{/* Replace div below with " + "<AppRouter />" + " if you have routing enabled */}"
  const GenericDivPlaceholder := "<div>\n        " + "<h1>Welcome to Tauri!</h1>"
  const GenericDivReplacement := "<AppRouter />\n      </div>"
  /** What the Provider-body rewrite puts between the Provider's tags. */
  const ProviderInjection := "\n      <AppRouter />\n    "

  /** template === "react-ts" */
  predicate IsTypeScript(template: string)
  {
    template == "react-ts"
  }

  /** The extension of the page, routes and App files. */
  function Ext(template: string): string
  {
    if IsTypeScript(template) then "tsx" else "jsx"
  }

  /** The lines of the minimal App that renders the router. */
  function AppLines(isTs: bool): seq<string>
  {
    [ "import React from 'react';",
      "import AppRouter from '@/routes';",
      "",
      if isTs then "const App: React.FC = () => {" else "function App() {",
      "  return <AppRouter />;",
      "}",
      "",
      "export default App;" ]
  }

  /** The minimal App once trimmed. */
  function CanonicalApp(isTs: bool): string
  {
    Join(AppLines(isTs), '\n')
  }

  /** The template literal used when the App file cannot be read (four spaces before
      the closing backtick). */
  function FallbackRaw(isTs: bool): string
  {
    "\n" + CanonicalApp(isTs) + "\n    "
  }

  /** The template literal used when the App file has no Provider (six spaces before
      the closing backtick). */
  function CanonicalRaw(isTs: bool): string
  {
    "\n" + CanonicalApp(isTs) + "\n      "
  }

  // ---------------------------------------------------------------------------
  // The four regular expressions, each as the end of its match at a given index.
  // Every quantifier in them is followed by a character it cannot consume, so the
  // backtracking matcher has one way to succeed at an index, spelled out below.

  datatype Pattern =
    | ImportReact     // /^import React[^;]*;/m
    | WrappedRouter   // /<div>\s*<AppRouter \/>\s*<\/div>/
    | RtkDemo         // /<p>Edit src\/App\.(jsx|tsx) and save ... <\/div>/
    | ProviderBlock   // /(<Provider[^>]*>)([^<]*)(<\/Provider>)/

  /** `^` in multiline mode: the start of the text or just after a line terminator. */
  predicate LineStart(s: string, p: nat)
    requires p <= |s|
  {
    p == 0 || IsLineTerminator(s[p - 1])
  }

  /** /^import React[^;]*;/m at p: a line start, then "import React", then everything
      up to and including the first ';'. */
  function ImportReactAt(s: string, p: nat): (r: Option<nat>)
    requires p <= |s|
    ensures r.Some? ==> p + 13 <= r.value <= |s| && s[r.value - 1] == ';'
  {
    if LineStart(s, p) && OccursAt(s, "import React", p) then
      match FindChar(s, ';', p + 12)
      case None => None
      case Some(q) => Some(q + 1)
    else None
  }

  /** /<div>\s*<AppRouter \/>\s*<\/div>/ at p; each \s* takes all the white space. */
  function WrappedRouterAt(s: string, p: nat): (r: Option<nat>)
    requires p <= |s|
    ensures r.Some? ==> p < r.value <= |s| && s[r.value - 1] == '>'
    ensures r.Some? ==> OccursAt(s, "<div>", p)
    ensures r.Some? ==> OccursAt(s, RouterTag, SkipSpaces(s, p + 5))
    ensures r.Some? ==> OccursAt(s, "</div>", SkipSpaces(s, SkipSpaces(s, p + 5) + 13))
    ensures r.Some? ==> r.value == SkipSpaces(s, SkipSpaces(s, p + 5) + 13) + 6
  {
    if OccursAt(s, "<div>", p) then
      var a := SkipSpaces(s, p + 5);
      if OccursAt(s, RouterTag, a) then
        var b := SkipSpaces(s, a + 13);
        if OccursAt(s, "</div>", b) then
          assert s[b + 5] == s[b..b + 6][5];
          Some(b + 6)
        else None
      else None
    else None
  }

  const EditLine := "<p>Edit src/App."
  const EditLineEnd := " and save to reload.</p>"
  const ReduxLine := "<p>Redux Toolkit is set up."
  const ExampleOpen := "/* Example component"

  /** The optional group (\{\s*\/\* Example component[^}]*\*\/\}\s*) at k: its end. */
  function ExampleGroupAt(s: string, k: nat): (r: Option<nat>)
    requires k <= |s|
    ensures r.Some? ==> k < r.value <= |s|
  {
    if k < |s| && s[k] == '{' then
      var e := SkipSpaces(s, k + 1);
      if OccursAt(s, ExampleOpen, e) then
        match FindChar(s, '}', e + |ExampleOpen|)
        case None => None
        case Some(m) =>
          if e + |ExampleOpen| + 2 <= m && s[m - 2] == '*' && s[m - 1] == '/' then
            Some(SkipSpaces(s, m + 1))
          else None
      else None
    else None
  }

  /** After the second paragraph, at d: `[^<]*` then the optional group then "</div>".
      With the group absent "</div>" can only start at the first '<' (or nowhere); with
      it present the group starts at some '{' before that point, latest first. */
  function DemoTail(s: string, d: nat): (r: Option<nat>)
    requires d <= |s|
    ensures r.Some? ==> d < r.value <= |s|
  {
    var stop := match FindChar(s, '<', d) case None => |s| case Some(x) => x;
    if OccursAt(s, "</div>", stop) then Some(stop + 6)
    else GroupThenDiv(s, d, stop)
  }

  /** Tries the group at k - 1, k - 2, ..., d and "</div>" right after it. */
  function GroupThenDiv(s: string, d: nat, k: nat): (r: Option<nat>)
    requires d <= k <= |s|
    ensures r.Some? ==> d < r.value <= |s|
    decreases k - d
  {
    if k == d then None
    else
      match ExampleGroupAt(s, k - 1)
      case Some(g) =>
        if OccursAt(s, "</div>", g) then Some(g + 6) else GroupThenDiv(s, d, k - 1)
      case None => GroupThenDiv(s, d, k - 1)
  }

  /** The regular expression that removes the Redux demo paragraphs, at p. */
  function RtkDemoAt(s: string, p: nat): (r: Option<nat>)
    requires p <= |s|
    ensures r.Some? ==> p < r.value <= |s|
  {
    var a := p + |EditLine| + 3;
    if OccursAt(s, EditLine, p)
       && (OccursAt(s, "jsx", p + |EditLine|) || OccursAt(s, "tsx", p + |EditLine|))
       && OccursAt(s, EditLineEnd, a)
    then
      match FindChar(s, '<', a + |EditLineEnd|)
      case None => None
      case Some(c1) =>
        if OccursAt(s, ReduxLine, c1) then
          match FindChar(s, '<', c1 + |ReduxLine|)
          case None => None
          case Some(c2) =>
            if OccursAt(s, "</p>", c2) then DemoTail(s, c2 + 4) else None
        else None
    else None
  }

  /** /(<Provider[^>]*>)([^<]*)(<\/Provider>)/ at p: the opening tag ends at the first
      '>', the body runs to the first '<', where "</Provider>" must stand. */
  function ProviderBlockAt(s: string, p: nat): (r: Option<nat>)
    requires p <= |s|
    ensures r.Some? ==> FindChar(s, '>', p + 9).Some? && FindChar(s, '>', p + 9).value < r.value <= |s|
  {
    if OccursAt(s, "<Provider", p) then
      match FindChar(s, '>', p + 9)
      case None => None
      case Some(q) =>
        match FindChar(s, '<', q + 1)
        case None => None
        case Some(c) => if OccursAt(s, ProviderClose, c) then Some(c + 11) else None
    else None
  }

  function MatchAt(pat: Pattern, s: string, p: nat): (r: Option<nat>)
    requires p <= |s|
    ensures r.Some? ==> p <= r.value <= |s|
  {
    match pat
    case ImportReact => ImportReactAt(s, p)
    case WrappedRouter => WrappedRouterAt(s, p)
    case RtkDemo => RtkDemoAt(s, p)
    case ProviderBlock => ProviderBlockAt(s, p)
  }

  /** String.prototype.match / replace with a non-global regular expression: the
      leftmost index at or after `from` where the pattern matches, and the match's end. */
  function Search(pat: Pattern, s: string, from: nat): (r: Option<(nat, nat)>)
    requires from <= |s|
    ensures r.Some? ==> from <= r.value.0 <= r.value.1 <= |s|
                        && MatchAt(pat, s, r.value.0) == Some(r.value.1)
    ensures r.Some? ==> forall j :: from <= j < r.value.0 ==> MatchAt(pat, s, j).None?
    ensures r.None? ==> forall j :: from <= j <= |s| ==> MatchAt(pat, s, j).None?
    decreases |s| - from
  {
    var here := MatchAt(pat, s, from);
    if here.Some? then Some((from, here.value))
    else if from == |s| then None
    else
      var r := Search(pat, s, from + 1);
      assert forall j :: from < j <= |s| && (r.None? || j < r.value.0) ==> MatchAt(pat, s, j).None?;
      r
  }

  /** s.replace(regex, u): the leftmost match replaced by u; no match, no change. */
  function ReplacePattern(pat: Pattern, s: string, u: string): string
  {
    match Search(pat, s, 0)
    case None => s
    case Some((p, e)) => Splice(s, p, e, u)
  }

  /** s.replace(/(<Provider[^>]*>)([^<]*)(<\/Provider>)/, "$1\n      <AppRouter />\n    $3"):
      the Provider's body replaced by the router. */
  function InjectIntoProvider(s: string): string
  {
    match Search(ProviderBlock, s, 0)
    case None => s
    case Some((p, e)) =>
      assert MatchAt(ProviderBlock, s, p) == ProviderBlockAt(s, p);
      RewriteProviderAt(s, p, e)
  }

  /** The Provider block from p to e with its opening tag kept, the body replaced by the
      router, and the closing tag written out. */
  function RewriteProviderAt(s: string, p: nat, e: nat): string
    requires p <= e <= |s|
    requires FindChar(s, '>', p + 9).Some? && FindChar(s, '>', p + 9).value < e
  {
    var q := FindChar(s, '>', p + 9).value;
    Splice(s, p, e, s[p..q + 1] + ProviderInjection + ProviderClose)
  }

  // ---------------------------------------------------------------------------
  // The patch

  /** The import step: unless the router import is already there, it goes after a
      newline behind the first `import React ...;` statement, or else at the top
      followed by a newline. The insertion is a string replace of the matched text, so
      it lands after that text's first occurrence, and whatever followed the `;` on that
      line stays after the import. */
  function WithRouterImport(s: string): string
  {
    if Contains(s, RouterImport) then s
    else
      match Search(ImportReact, s, 0)
      case Some((p, e)) => ReplaceFirst(s, s[p..e], s[p..e] + "\n" + RouterImport)
      case None => RouterImport + "\n" + s
  }

  /** Where the router goes, tested in this order. */
  datatype Edit =
    | FillRtkPlaceholder
    | FillWelcomePlaceholder
    | ReplaceGenericDiv
    | InjectProviderBody
    | UseCanonicalApp

  function ChooseEdit(s: string): Edit
  {
    if !Contains(s, ProviderTag) then UseCanonicalApp
    else if Contains(s, RtkPlaceholder) then FillRtkPlaceholder
    else if Contains(s, WelcomePlaceholder) then FillWelcomePlaceholder
    else if Contains(s, GenericDivPlaceholder) then ReplaceGenericDiv
    else InjectProviderBody
  }

  function ApplyEdit(isTs: bool, s: string, edit: Edit): string
  {
    match edit
    case FillRtkPlaceholder => ReplaceFirst(s, RtkPlaceholder, RouterTag)
    case FillWelcomePlaceholder =>
      ReplacePattern(WrappedRouter, ReplaceFirst(s, WelcomePlaceholder, RouterTag), RouterTag)
    case ReplaceGenericDiv =>
      ReplacePattern(RtkDemo, ReplaceFirst(s, GenericDivPlaceholder, GenericDivReplacement), "")
    case InjectProviderBody => InjectIntoProvider(s)
    case UseCanonicalApp => Trim(CanonicalRaw(isTs))
  }

  /** Both markers present: the file is left alone. */
  predicate AlreadyRouted(s: string)
  {
    Contains(s, ImportMarker) && Contains(s, RouterTag)
  }

  /** What the patch writes to the App file whose text is s (None: nothing written). */
  function PatchedApp(isTs: bool, s: string): Option<string>
  {
    if AlreadyRouted(s) then None
    else
      var s1 := WithRouterImport(s);
      Some(Trim(ApplyEdit(isTs, s1, ChooseEdit(s1))))
  }

  /** The text the patch starts from: the file's text, or the fallback App when the
      file cannot be read. */
  function AppSource(isTs: bool, existing: Option<string>): string
  {
    match existing
    case Some(s) => s
    case None => Trim(FallbackRaw(isTs))
  }

  /** The App-file part of setupRouter, step by step on one text variable. */
  method SetupRouterApp(isTs: bool, existing: Option<string>) returns (written: Option<string>)
    ensures written == PatchedApp(isTs, AppSource(isTs, existing))
  {
    var content := "";
    if existing.Some? {
      content := existing.value;
    } else {
      content := Trim(FallbackRaw(isTs));
    }
    if Contains(content, ImportMarker) && Contains(content, RouterTag) {
      written := None;
    } else {
      content := AddImport(content);
      content := InsertRouter(isTs, content);
      written := Some(Trim(content));
    }
  }

  /** The import step of setupRouter on the App text. */
  method AddImport(text: string) returns (content: string)
    ensures content == WithRouterImport(text)
  {
    content := text;
    if !Contains(content, RouterImport) {
      var found := Search(ImportReact, content, 0);
      if found.Some? {
        var matched := content[found.value.0..found.value.1];
        content := ReplaceFirst(content, matched, matched + "\n" + RouterImport);
      } else {
        content := RouterImport + "\n" + content;
      }
    }
  }

  /** The rendering step of setupRouter on the App text, the import already in place. */
  method InsertRouter(isTs: bool, text: string) returns (content: string)
    ensures content == ApplyEdit(isTs, text, ChooseEdit(text))
  {
    content := text;
    if Contains(content, ProviderTag) {
      if Contains(content, RtkPlaceholder) {
        content := ReplaceFirst(content, RtkPlaceholder, RouterTag);
      } else if Contains(content, WelcomePlaceholder) {
        content := ReplaceFirst(content, WelcomePlaceholder, RouterTag);
        content := ReplacePattern(WrappedRouter, content, RouterTag);
      } else if Contains(content, GenericDivPlaceholder) {
        content := ReplaceFirst(content, GenericDivPlaceholder, GenericDivReplacement);
        content := ReplacePattern(RtkDemo, content, "");
      } else {
        content := InjectIntoProvider(content);
      }
    } else {
      content := Trim(CanonicalRaw(isTs));
    }
  }

  // ---------------------------------------------------------------------------
  // The import step

  /** The import step leaves the router import in the text. */
  lemma RouterImportAdded(s: string)
    ensures Contains(WithRouterImport(s), RouterImport)
  {
    if !Contains(s, RouterImport) {
      match Search(ImportReact, s, 0)
      case Some((p, e)) =>
        OccursThenContains(s, s[p..e], p);
        ReplaceFirstAddsSuffix(s, s[p..e], s[p..e] + "\n", RouterImport);
      case None =>
        PrefixContained(RouterImport, "\n" + s);
    }
  }

  /** The first `import React ...;` statement ends with its ';'. */
  lemma ReactImportEnds(s: string) returns (p: nat, e: nat)
    requires Search(ImportReact, s, 0).Some?
    ensures Search(ImportReact, s, 0) == Some((p, e))
    ensures p + 13 <= e <= |s| && s[e - 1] == ';'
  {
    p, e := Search(ImportReact, s, 0).value.0, Search(ImportReact, s, 0).value.1;
    assert ImportReactAt(s, p) == Some(e);
  }

  /** With an `import React ...;` statement, the import goes, after a newline, right
      behind the first occurrence of that statement's text, which may come before the
      statement itself (inside a comment or a string, say). */
  lemma ImportAfterReact(s: string) returns (c: nat)
    requires !Contains(s, RouterImport) && Search(ImportReact, s, 0).Some?
    ensures var (p, e) := Search(ImportReact, s, 0).value;
      Contains(s, s[p..e]) && c == IndexOf(s, s[p..e]).value + (e - p) && c <= e
    ensures 0 < c <= |s| && s[c - 1] == ';'
    ensures WithRouterImport(s) == Splice(s, c, c, "\n" + RouterImport)
  {
    var p, e := ReactImportEnds(s);
    ImportAfterStatement(s, p, e);
    c := AppendAfterSlice(s, p, e, "\n" + RouterImport);
  }

  /** The import step appends the import to the text of the `import React` statement. */
  lemma ImportAfterStatement(s: string, p: nat, e: nat)
    requires !Contains(s, RouterImport) && Search(ImportReact, s, 0) == Some((p, e))
    ensures WithRouterImport(s) == ReplaceFirst(s, s[p..e], s[p..e] + ("\n" + RouterImport))
  {
    assert s[p..e] + "\n" + RouterImport == s[p..e] + ("\n" + RouterImport);
  }

  /** Without one, it goes at the top. */
  lemma ImportAtTop(s: string)
    requires !Contains(s, RouterImport) && Search(ImportReact, s, 0).None?
    ensures WithRouterImport(s) == Splice(s, 0, 0, RouterImport + "\n")
  {
    assert WithRouterImport(s) == RouterImport + "\n" + s;
    assert Splice(s, 0, 0, RouterImport + "\n") == RouterImport + "\n" + s;
  }

  /** When the import is missing, the import step inserts it whole and changes nothing
      else: as the first line of the file, or after a newline right behind the first
      occurrence of the text of the first `import React ...;` statement, which ends
      with a ';'. */
  lemma ImportInsertion(s: string) returns (c: nat, x: string)
    requires !Contains(s, RouterImport)
    ensures c <= |s| && WithRouterImport(s) == Splice(s, c, c, x)
    ensures (c == 0 && x == RouterImport + "\n") || (0 < c && s[c - 1] == ';' && x == "\n" + RouterImport)
  {
    if Search(ImportReact, s, 0).Some? {
      c := ImportAfterReact(s);
      x := "\n" + RouterImport;
    } else {
      ImportAtTop(s);
      c, x := 0, RouterImport + "\n";
    }
  }

  /** The import line's length, its ends and its leading marker. */
  lemma RouterImportShape()
    ensures |RouterImport| > 33 && RouterImport[32] == ';' && RouterImport[..|ImportMarker|] == ImportMarker
    ensures RouterImport[0] == 'i' && RouterImport[1] == 'm' && RouterImport[|RouterImport| - 1] == 'x'
  {
  }

  /** The tag opens with '<' and closes with '>'. */
  lemma RouterTagEnds()
    ensures |RouterTag| > 1 && RouterTag[0] == '<' && RouterTag[|RouterTag| - 1] == '>'
  {
  }

  /** The character facts about the import line that the lemmas below use. */
  lemma RouterImportFacts()
    ensures |RouterImport| > 33 && RouterImport[32] == ';' && RouterImport[..|ImportMarker|] == ImportMarker
    ensures RouterImport[0] == 'i' && RouterImport[1] == 'm' && RouterImport[|RouterImport| - 1] == 'x'
    ensures '<' !in RouterImport && '>' !in RouterImport && '{' !in RouterImport && '}' !in RouterImport
  {
    RouterImportShape();
    RouterImportLacksOpen();
    RouterImportLacksClose();
    RouterImportLacksOpenBrace();
    RouterImportLacksCloseBrace();
  }

  /** One character at a time: the import line holds no angle bracket and no brace. */
  lemma RouterImportLacksOpen() ensures '<' !in RouterImport {}
  lemma RouterImportLacksClose() ensures '>' !in RouterImport {}
  lemma RouterImportLacksOpenBrace() ensures '{' !in RouterImport {}
  lemma RouterImportLacksCloseBrace() ensures '}' !in RouterImport {}


  /** The import step neither creates nor destroys an occurrence of a text whose end
      characters are not in the import line and which holds no ';'. */
  lemma ImportStepKeeps(s: string, t: string)
    requires |t| > 0 && ';' !in t
    requires t[0] != '\n' && t[0] !in RouterImport
    requires t[|t| - 1] != '\n' && t[|t| - 1] !in RouterImport
    ensures Contains(WithRouterImport(s), t) <==> Contains(s, t)
  {
    if !Contains(s, RouterImport) {
      var c, x := ImportInsertion(s);
      RouterImportFacts();
      var k := if c == 0 then 32 else 33;
      assert x[k] == ';';
      assert t[0] !in x && t[|t| - 1] !in x;
      if Contains(s, t) {
        InsertAfterKeeps(s, c, x, t, IndexOf(s, t).value);
      } else {
        InsertKeepsAbsent(s, c, x, t, k);
      }
    }
  }

  /** The end characters of the four texts that select the edit. */
  lemma ProviderTagFacts()
    ensures ProviderTag[0] == '<' && ProviderTag[|ProviderTag| - 1] == '>' && ';' !in ProviderTag
  {
    ProviderTagLacksSemicolon();
  }

  lemma RtkPlaceholderFacts()
    ensures RtkPlaceholder[0] == '{' && RtkPlaceholder[|RtkPlaceholder| - 1] == '}'
    ensures ';' !in RtkPlaceholder && 'm' !in RtkPlaceholder
  {
    RtkPlaceholderLacksSemicolon();
    RtkPlaceholderLacksM();
  }

  lemma WelcomePlaceholderFacts()
    ensures WelcomePlaceholder[0] == '{' && WelcomePlaceholder[|WelcomePlaceholder| - 1] == '}'
    ensures ';' !in WelcomePlaceholder
  {
    WelcomePlaceholderLacksSemicolon();
  }

  lemma GenericDivFacts()
    ensures GenericDivPlaceholder[0] == '<' && GenericDivPlaceholder[|GenericDivPlaceholder| - 1] == '>'
    ensures ';' !in GenericDivPlaceholder
  {
    GenericDivLacksSemicolon();
  }

  /** One character at a time: the texts that select an edit hold no ';', and the
      placeholders no 'm'. */
  lemma ProviderTagLacksSemicolon() ensures ';' !in ProviderTag {}
  lemma RtkPlaceholderLacksSemicolon() ensures ';' !in RtkPlaceholder {}
  lemma RtkPlaceholderLacksM() ensures 'm' !in RtkPlaceholder {}
  lemma WelcomePlaceholderLacksSemicolon() ensures ';' !in WelcomePlaceholder {}
  lemma WelcomePlaceholderNoM() ensures 'm' !in WelcomePlaceholder {}
  lemma GenericDivLacksSemicolon() ensures ';' !in GenericDivPlaceholder {}

  /** Adding the import never changes which edit is chosen: the branch depends only on
      the file as it was read. */
  lemma EditChosenOnOriginal(s: string)
    ensures ChooseEdit(WithRouterImport(s)) == ChooseEdit(s)
  {
    RouterImportFacts();
    ProviderTagFacts();
    ImportStepKeeps(s, ProviderTag);
    RtkPlaceholderFacts();
    ImportStepKeeps(s, RtkPlaceholder);
    WelcomePlaceholderFacts();
    ImportStepKeeps(s, WelcomePlaceholder);
    GenericDivFacts();
    ImportStepKeeps(s, GenericDivPlaceholder);
  }

  // ---------------------------------------------------------------------------
  // The minimal App

  /** The minimal App holds both markers of a routed App. */
  lemma CanonicalAppRouted(isTs: bool)
    ensures AlreadyRouted(CanonicalApp(isTs))
  {
    CanonicalAppImports(isTs);
    CanonicalAppRenders(isTs);
  }

  /** Its second line imports the routes. */
  lemma CanonicalAppImports(isTs: bool)
    ensures Contains(CanonicalApp(isTs), ImportMarker)
  {
    var lines := AppLines(isTs);
    var s := CanonicalApp(isTs);
    PieceOccurs(lines, '\n', 1);
    assert lines[1][..|ImportMarker|] == ImportMarker;
    InnerOccurs(s, lines[1], PieceStart(lines, 1), ImportMarker, 0);
    OccursThenContains(s, ImportMarker, PieceStart(lines, 1));
  }

  /** Its fifth line renders the router. */
  lemma CanonicalAppRenders(isTs: bool)
    ensures Contains(CanonicalApp(isTs), RouterTag)
  {
    var lines := AppLines(isTs);
    var s := CanonicalApp(isTs);
    PieceOccurs(lines, '\n', 4);
    assert lines[4][9..9 + |RouterTag|] == RouterTag;
    InnerOccurs(s, lines[4], PieceStart(lines, 4), RouterTag, 9);
    OccursThenContains(s, RouterTag, PieceStart(lines, 4) + 9);
  }

  /** Both template literals trim to the minimal App. */
  lemma RawTemplatesTrim(isTs: bool)
    ensures Trim(CanonicalRaw(isTs)) == CanonicalApp(isTs)
    ensures Trim(FallbackRaw(isTs)) == CanonicalApp(isTs)
  {
    var lines := AppLines(isTs);
    JoinEnds(lines, '\n');
    TrimFramed("\n", CanonicalApp(isTs), "\n      ");
    TrimFramed("\n", CanonicalApp(isTs), "\n    ");
  }

  /** An App file without the Provider is replaced wholesale by the minimal App,
      whatever else it held. */
  lemma WithoutProviderReplaced(isTs: bool, s: string)
    requires !AlreadyRouted(s) && !Contains(s, ProviderTag)
    ensures PatchedApp(isTs, s) == Some(CanonicalApp(isTs))
  {
    EditChosenOnOriginal(s);
    RawTemplatesTrim(isTs);
    TrimIdempotent(CanonicalRaw(isTs));
  }

  // ---------------------------------------------------------------------------
  // Running the patch twice

  /** A text holding the router import and the tag is routed once trimmed. */
  lemma RoutedAfterTrim(s: string)
    requires Contains(s, RouterImport) && Contains(s, RouterTag)
    ensures AlreadyRouted(Trim(s))
  {
    MarkerAfterTrim(s);
    RouterTagEnds();
    assert !IsSpace('<') && !IsSpace('>');
    TrimKeeps(s, RouterTag, IndexOf(s, RouterTag).value);
  }

  /** Trimming keeps the import line, and with it the import marker. */
  lemma MarkerAfterTrim(s: string)
    requires Contains(s, RouterImport)
    ensures Contains(Trim(s), ImportMarker)
  {
    RouterImportShape();
    assert !IsSpace('i') && !IsSpace('x');
    var t := Trim(s);
    TrimKeeps(s, RouterImport, IndexOf(s, RouterImport).value);
    var j := IndexOf(t, RouterImport).value;
    PrefixOccurs(t, RouterImport, j, |ImportMarker|);
    OccursThenContains(t, ImportMarker, j);
  }

  /** Filling a placeholder that holds no 'm' and is delimited by braces keeps the import
      and adds the tag. */
  lemma FillKeepsImport(s: string, placeholder: string)
    requires Contains(s, RouterImport) && Contains(s, placeholder)
    requires |placeholder| > 0 && placeholder[0] == '{' && placeholder[|placeholder| - 1] == '}'
    requires 'm' !in placeholder
    ensures Contains(ReplaceFirst(s, placeholder, RouterTag), RouterImport)
    ensures Contains(ReplaceFirst(s, placeholder, RouterTag), RouterTag)
  {
    RouterImportFacts();
    ReplaceFirstKeeps(s, placeholder, RouterTag, RouterImport, IndexOf(s, RouterImport).value);
    ReplaceFirstInserts(s, placeholder, RouterTag);
  }

  /** The text a match of /<div>\s*<AppRouter \/>\s*<\/div>/ covers holds no 'm'. */
  lemma WrappedRegionNoM(s: string, p: nat)
    requires p <= |s| && WrappedRouterAt(s, p).Some?
    ensures forall k :: p <= k < WrappedRouterAt(s, p).value ==> s[k] != 'm'
  {
    var a := SkipSpaces(s, p + 5);
    var b := SkipSpaces(s, a + 13);
    assert 'm' !in "<div>" && 'm' !in RouterTag && 'm' !in "</div>" && !IsSpace('m');
    OccurrenceLacks(s, "<div>", p, 'm');
    SkippedLacks(s, p + 5, 'm');
    OccurrenceLacks(s, RouterTag, a, 'm');
    SkippedLacks(s, a + 13, 'm');
    OccurrenceLacks(s, "</div>", b, 'm');
  }

  /** The import line lies clear of a span that opens with '<', closes with '>' and
      holds no 'm' after its first character. */
  lemma ApartFromImport(s: string, j: nat, p: nat, e: nat)
    requires OccursAt(s, RouterImport, j) && p < e <= |s|
    requires s[p] == '<' && s[e - 1] == '>'
    requires forall k :: p <= k < e ==> s[k] != 'm'
    ensures j + |RouterImport| <= p || e <= j
  {
    RouterImportFacts();
    Apart(s, RouterImport, j, p, e);
  }

  /** Replacing one match of the wrapped-router pattern by the tag keeps the import. */
  lemma UnwrapAtKeepsImport(s: string, p: nat, e: nat)
    requires p <= |s| && WrappedRouterAt(s, p) == Some(e) && Contains(s, RouterImport)
    ensures Contains(Splice(s, p, e, RouterTag), RouterImport)
    ensures Contains(Splice(s, p, e, RouterTag), RouterTag)
  {
    var j := IndexOf(s, RouterImport).value;
    WrappedRegionNoM(s, p);
    OccurrenceStarts(s, "<div>", p);
    ApartFromImport(s, j, p, e);
    SpliceKeepsOutside(s, p, e, RouterTag, RouterImport, j);
    SpliceContains(s, p, e, RouterTag, RouterTag, 0);
  }

  /** Unwrapping <div><AppRouter /></div> keeps the import and the tag. */
  lemma UnwrapKeepsImport(s: string)
    requires Contains(s, RouterImport) && Contains(s, RouterTag)
    ensures Contains(ReplacePattern(WrappedRouter, s, RouterTag), RouterImport)
    ensures Contains(ReplacePattern(WrappedRouter, s, RouterTag), RouterTag)
  {
    var found := Search(WrappedRouter, s, 0);
    if found.Some? {
      UnwrapAtKeepsImport(s, found.value.0, found.value.1);
    }
  }

  /** When the patch fills the rtk or the welcome placeholder or writes the minimal App,
      the file it writes is routed: running setupRouter again leaves it alone. */
  lemma PatchIdempotent(isTs: bool, isTs': bool, s: string)
    requires !AlreadyRouted(s)
    requires ChooseEdit(s) in {FillRtkPlaceholder, FillWelcomePlaceholder, UseCanonicalApp}
    ensures PatchedApp(isTs, s).Some?
    ensures AlreadyRouted(PatchedApp(isTs, s).value)
    ensures PatchedApp(isTs', PatchedApp(isTs, s).value) == None
  {
    var s1 := WithRouterImport(s);
    EditChosenOnOriginal(s);
    RouterImportAdded(s);
    match ChooseEdit(s)
    case FillRtkPlaceholder => RtkFillRouted(isTs, s1);
    case FillWelcomePlaceholder => WelcomeFillRouted(isTs, s1);
    case UseCanonicalApp => CanonicalRouted(isTs, s1);
  }

  /** Filling the rtk placeholder of a text holding the import gives a routed file. */
  lemma RtkFillRouted(isTs: bool, s1: string)
    requires Contains(s1, RouterImport) && Contains(s1, RtkPlaceholder)
    ensures AlreadyRouted(Trim(ApplyEdit(isTs, s1, FillRtkPlaceholder)))
  {
    RtkPlaceholderFacts();
    FillKeepsImport(s1, RtkPlaceholder);
    RoutedAfterTrim(ReplaceFirst(s1, RtkPlaceholder, RouterTag));
  }

  /** Filling the welcome placeholder of a text holding the import gives a routed file. */
  lemma WelcomeFillRouted(isTs: bool, s1: string)
    requires Contains(s1, RouterImport) && Contains(s1, WelcomePlaceholder)
    ensures AlreadyRouted(Trim(ApplyEdit(isTs, s1, FillWelcomePlaceholder)))
  {
    WelcomePlaceholderFacts();
    WelcomePlaceholderNoM();
    FillKeepsImport(s1, WelcomePlaceholder);
    UnwrapKeepsImport(ReplaceFirst(s1, WelcomePlaceholder, RouterTag));
    RoutedAfterTrim(ApplyEdit(isTs, s1, FillWelcomePlaceholder));
  }

  /** The minimal App, trimmed once more, is routed. */
  lemma CanonicalRouted(isTs: bool, s1: string)
    ensures AlreadyRouted(Trim(ApplyEdit(isTs, s1, UseCanonicalApp)))
  {
    RawTemplatesTrim(isTs);
    TrimIdempotent(CanonicalRaw(isTs));
    CanonicalAppRouted(isTs);
  }

  /** The Provider-body replacement holds the tag. */
  lemma InjectionHoldsTag(openTag: string)
    ensures OccursAt(openTag + ProviderInjection + ProviderClose, RouterTag, |openTag| + 7)
  {
    var u := openTag + ProviderInjection + ProviderClose;
    assert ProviderInjection[7..7 + |RouterTag|] == RouterTag;
    assert u[|openTag| + 7..|openTag| + 7 + |RouterTag|] == ProviderInjection[7..7 + |RouterTag|];
  }

  /** The rewrite of one Provider block puts the tag in. */
  lemma InjectAtAddsTag(s: string, p: nat, e: nat)
    requires p <= e <= |s|
    requires FindChar(s, '>', p + 9).Some? && FindChar(s, '>', p + 9).value < e
    ensures Contains(RewriteProviderAt(s, p, e), RouterTag)
  {
    var q := FindChar(s, '>', p + 9).value;
    var openTag := s[p..q + 1];
    var u := openTag + ProviderInjection + ProviderClose;
    assert RewriteProviderAt(s, p, e) == Splice(s, p, e, u);
    InjectionHoldsTag(openTag);
    SpliceContains(s, p, e, u, RouterTag, |openTag| + 7);
  }

  /** Whenever the Provider's body can be rewritten, the rewrite puts the tag in. */
  lemma ProviderInjectionAddsTag(s: string)
    requires Search(ProviderBlock, s, 0).Some?
    ensures Contains(InjectIntoProvider(s), RouterTag)
  {
    match Search(ProviderBlock, s, 0)
    case Some((p, e)) =>
      assert MatchAt(ProviderBlock, s, p) == ProviderBlockAt(s, p);
      InjectAtAddsTag(s, p, e);
  }

  /** The file setupRouter writes is trimmed. */
  lemma WrittenTrimmed(isTs: bool, s: string)
    requires PatchedApp(isTs, s).Some?
    ensures Trim(PatchedApp(isTs, s).value) == PatchedApp(isTs, s).value
  {
    var s1 := WithRouterImport(s);
    TrimIdempotent(ApplyEdit(isTs, s1, ChooseEdit(s1)));
  }

  // ---------------------------------------------------------------------------
  // A missing App file

  /** As written: when the App file cannot be read, the fallback text already holds
      both markers, so the patch skips and no App file is written, although the
      warning says a new one is being created. */
  lemma MissingAppNeverWritten(isTs: bool)
    ensures PatchedApp(isTs, AppSource(isTs, None)) == None
  {
    RawTemplatesTrim(isTs);
    CanonicalAppRouted(isTs);
  }

  /** The evidently intended behaviour: a missing App file is created as the minimal
      App; an existing one is patched as before. */
  function CorrectedAppWrite(isTs: bool, existing: Option<string>): Option<string>
  {
    match existing
    case None => Some(CanonicalApp(isTs))
    case Some(s) => PatchedApp(isTs, s)
  }

  /** The corrected step writes a missing App file, and what it writes is routed, so a
      later run leaves it alone. */
  lemma CorrectedCreatesMissingApp(isTs: bool, isTs': bool)
    ensures CorrectedAppWrite(isTs, None).Some?
    ensures AlreadyRouted(CorrectedAppWrite(isTs, None).value)
    ensures CorrectedAppWrite(isTs', Some(CorrectedAppWrite(isTs, None).value)) == None
  {
    CanonicalAppRouted(isTs);
  }

  /** The files setupRouter writes, in order: the Home and About pages, the routes
      index, and the App. */
  function RouterPaths(template: string): seq<string>
  {
    var e := Ext(template);
    ["src/pages/Home." + e, "src/pages/About." + e, "src/routes/index." + e, "src/App." + e]
  }

  /** Every file setupRouter writes is a .tsx file exactly for react-ts and a .jsx file
      otherwise. */
  lemma RouterPathsFollowTemplate(template: string)
    ensures |RouterPaths(template)| == 4
    ensures forall k :: 0 <= k < 4 ==>
      (EndsWith(RouterPaths(template)[k], ".tsx") <==> IsTypeScript(template))
    ensures forall k :: 0 <= k < 4 ==>
      (EndsWith(RouterPaths(template)[k], ".jsx") <==> !IsTypeScript(template))
  {
    var e := Ext(template);
    var paths := RouterPaths(template);
    var stems := ["src/pages/Home.", "src/pages/About.", "src/routes/index.", "src/App."];
    ExtensionTexts();
    forall k | 0 <= k < 4
      ensures EndsWith(paths[k], ".tsx") <==> IsTypeScript(template)
      ensures EndsWith(paths[k], ".jsx") <==> !IsTypeScript(template)
    {
      assert paths[k] == stems[k] + e;
      DotSuffix(stems[k], e);
      if IsTypeScript(template) {
        OneSuffixOfLength(paths[k], ".tsx", ".jsx");
      } else {
        OneSuffixOfLength(paths[k], ".jsx", ".tsx");
      }
    }
  }

  /** The two extensions, with their dots, differ and have the same length. */
  lemma ExtensionTexts()
    ensures ".tsx" == "." + "tsx" && ".jsx" == "." + "jsx"
    ensures |".tsx"| == |".jsx"| && ".tsx" != ".jsx"
  {
    assert ".tsx"[1] != ".jsx"[1];
  }

  /** setupRouter as written: it writes the two pages and the routes index, then patches
      the App file, or the fallback App when the file cannot be read. */
  method SetupRouter(template: string, existing: Option<string>) returns (paths: seq<string>, written: Option<string>)
    ensures paths == RouterPaths(template)
    ensures written == PatchedApp(IsTypeScript(template), AppSource(IsTypeScript(template), existing))
  {
    var isTypeScript := template == "react-ts";
    var pageExt := if isTypeScript then "tsx" else "jsx";
    var routesExt := if isTypeScript then "tsx" else "jsx";
    var appExt := if isTypeScript then "tsx" else "jsx";
    assert pageExt == routesExt == appExt == Ext(template);
    paths := ["src/pages/Home." + pageExt, "src/pages/About." + pageExt,
              "src/routes/index." + routesExt, "src/App." + appExt];
    written := SetupRouterApp(isTypeScript, existing);
  }

  /** setupRouter with the missing-file case corrected: the same files, and a missing
      App file is created as the minimal App. */
  method CorrectedSetupRouter(template: string, existing: Option<string>) returns (paths: seq<string>, written: Option<string>)
    ensures paths == RouterPaths(template)
    ensures written == CorrectedAppWrite(IsTypeScript(template), existing)
  {
    paths, written := SetupRouter(template, existing);
    if existing.None? {
      written := Some(CanonicalApp(IsTypeScript(template)));
    }
  }

  // ---------------------------------------------------------------------------
  // The App the rtk feature writes, met by the router patch

  /** The lines of the App text the rtk feature writes before setupRouter runs. */
  const RtkAppLines: seq<string> :=
    [ "import React from 'react';",
      "import { Provider } from 'react-redux';",
      "import { store } from './store';",
      "",
      "function App() {",
      "  return (",
      "    " + ProviderTag,
      RtkComment,
      "    " + ProviderClose,
      "  );",
      "}",
      "",
      "export default App;" ]

  const RtkAppText := Join(RtkAppLines, '\n')

  /** The comment rtk leaves inside the Provider. */
  const RtkComment := "      {/* \U{4f60}\U{7684}\U{5e94}\U{7528}\U{7ec4}\U{4ef6} */}"

  /** Character facts about rtk's App, used by the router patch: no line holds the tag,
      a placeholder or the generic div, because each line lacks one of their
      characters. Each fact is split at line 6 (the `<Provider` line) into a head
      lemma and a tail lemma, so the solver checks each literal once. */
  lemma RtkLinesLackTagChar()
    ensures forall k :: 0 <= k < |RtkAppLines| ==> '<' !in RtkAppLines[k] || 'A' !in RtkAppLines[k]
  {
    RtkHeadLacksOpen();
    RtkTailLacksTagChar();
  }

  lemma RtkLinesLackY()
    ensures forall k :: 0 <= k < |RtkAppLines| ==> 'Y' !in RtkAppLines[k]
  {
    RtkHeadLacksY();
    RtkTailLacksY();
  }

  lemma RtkLinesLackW()
    ensures forall k :: 0 <= k < |RtkAppLines| ==> 'w' !in RtkAppLines[k]
  {
    RtkHeadLacksW();
    RtkTailLacksW();
  }

  lemma RtkLinesLackH()
    ensures forall k :: 0 <= k < |RtkAppLines| ==> 'h' !in RtkAppLines[k]
  {
    RtkHeadLacksH();
    RtkTailLacksH();
  }

  lemma RtkHeadLacksOpen() ensures forall k :: 0 <= k < 6 ==> '<' !in RtkAppLines[k] {}
  lemma RtkTailLacksTagChar() ensures forall k :: 6 <= k < |RtkAppLines| ==> '<' !in RtkAppLines[k] || 'A' !in RtkAppLines[k] {}
  lemma RtkHeadLacksY() ensures forall k :: 0 <= k < 6 ==> 'Y' !in RtkAppLines[k] {}
  lemma RtkTailLacksY() ensures forall k :: 6 <= k < |RtkAppLines| ==> 'Y' !in RtkAppLines[k] {}
  lemma RtkHeadLacksW() ensures forall k :: 0 <= k < 6 ==> 'w' !in RtkAppLines[k] {}
  lemma RtkTailLacksW() ensures forall k :: 6 <= k < |RtkAppLines| ==> 'w' !in RtkAppLines[k] {}
  lemma RtkHeadLacksH() ensures forall k :: 0 <= k < 6 ==> 'h' !in RtkAppLines[k] {}
  lemma RtkTailLacksH() ensures forall k :: 6 <= k < |RtkAppLines| ==> 'h' !in RtkAppLines[k] {}

  lemma RtkProviderLine()
    ensures OccursAt(RtkAppLines[6], ProviderTag, 4)
  {
    RtkProviderLineText();
    assert ("    " + ProviderTag)[4..4 + |ProviderTag|] == ProviderTag;
  }

  lemma RtkProviderLineText()
    ensures RtkAppLines[6] == "    " + ProviderTag
  {
  }

  lemma RtkAppHasProvider()
    ensures Contains(RtkAppText, ProviderTag)
  {
    RtkProviderLine();
    PieceOccurs(RtkAppLines, '\n', 6);
    ContainsInner(RtkAppText, RtkAppLines[6], PieceStart(RtkAppLines, 6), ProviderTag, 4);
  }

  lemma RtkAppLacksTag()
    ensures !Contains(RtkAppText, RouterTag)
  {
    var lines := RtkAppLines;
    RtkLinesLackTagChar();
    forall k | 0 <= k < |lines| ensures !Contains(lines[k], RouterTag) {
      if '<' !in lines[k] {
        AbsentCharNotContained(lines[k], RouterTag, 0);
      } else {
        AbsentCharNotContained(lines[k], RouterTag, 1);
      }
    }
    NotInJoin(lines, '\n', RouterTag);
  }

  lemma RtkAppLacksChars()
    ensures 'Y' !in RtkAppText && 'w' !in RtkAppText && 'h' !in RtkAppText
  {
    RtkLinesLackY();
    CharNotInJoin(RtkAppLines, '\n', 'Y');
    RtkLinesLackW();
    CharNotInJoin(RtkAppLines, '\n', 'w');
    RtkLinesLackH();
    CharNotInJoin(RtkAppLines, '\n', 'h');
  }

  /** A text lacking 'Y', 'w' and 'h' holds none of the texts the other edits look for. */
  lemma NoPlaceholderWithout(s: string)
    requires 'Y' !in s && 'w' !in s && 'h' !in s
    ensures !Contains(s, RtkPlaceholder)
    ensures !Contains(s, WelcomePlaceholder)
    ensures !Contains(s, GenericDivPlaceholder)
  {
    assert RtkPlaceholder[4] == 'Y';
    AbsentCharNotContained(s, RtkPlaceholder, 4);
    assert WelcomePlaceholder[20] == 'w';
    AbsentCharNotContained(s, WelcomePlaceholder, 20);
    assert GenericDivPlaceholder[15] == 'h';
    AbsentCharNotContained(s, GenericDivPlaceholder, 15);
  }

  /** When rtk has written its App, the router patch rewrites the Provider's body: the
      comment rtk leaves inside the Provider is not the placeholder the patch fills. */
  lemma RtkAppTakesProviderRewrite()
    ensures !AlreadyRouted(RtkAppText)
    ensures ChooseEdit(RtkAppText) == InjectProviderBody
  {
    RtkAppHasProvider();
    RtkAppLacksTag();
    RtkAppLacksChars();
    NoPlaceholderWithout(RtkAppText);
  }

  /** Lines 6 to 8 of rtk's App, from the Provider's opening tag to its closing one. */
  const RtkProviderBlock := ProviderTag + RtkProviderBody + ProviderClose

  /** What rtk leaves between the Provider's tags: its comment on a line of its own. */
  const RtkProviderBody := "\n" + RtkComment + "\n    "

  /** And so the router patch of rtk's App puts `<AppRouter />` into it: the Provider
      pattern matches rtk's Provider block, whose body holds no '<'. */
  lemma RtkAppPatchedWithRouter(isTs: bool)
    ensures PatchedApp(isTs, RtkAppText).Some?
    ensures Contains(PatchedApp(isTs, RtkAppText).value, RouterTag)
  {
    RtkAppTakesProviderRewrite();
    RtkAppHoldsBlock();
    BlockRewriteRouted(isTs, RtkAppText);
  }

  /** An App that takes the Provider rewrite and holds rtk's Provider block comes out
      with the tag. */
  lemma BlockRewriteRouted(isTs: bool, s: string)
    requires !AlreadyRouted(s) && ChooseEdit(s) == InjectProviderBody
    requires Contains(s, RtkProviderBlock)
    ensures PatchedApp(isTs, s).Some?
    ensures Contains(PatchedApp(isTs, s).value, RouterTag)
  {
    EditChosenOnOriginal(s);
    var s1 := WithRouterImport(s);
    BlockKeptByImport(s);
    var p := IndexOf(s1, RtkProviderBlock).value;
    RtkBodyLacksOpen();
    ProviderBlockMatches(s1, p, RtkProviderBody);
    assert MatchAt(ProviderBlock, s1, p).Some?;
    ProviderInjectionAddsTag(s1);
    TagSurvivesTrim(InjectIntoProvider(s1));
  }

  lemma BlockKeptByImport(s: string)
    requires Contains(s, RtkProviderBlock)
    ensures Contains(WithRouterImport(s), RtkProviderBlock)
  {
    RtkBlockEnds();
    RouterImportFacts();
    ImportStepKeeps(s, RtkProviderBlock);
  }

  lemma TagSurvivesTrim(r: string)
    requires Contains(r, RouterTag)
    ensures Contains(Trim(r), RouterTag)
  {
    RouterTagEnds();
    TrimKeeps(r, RouterTag, IndexOf(r, RouterTag).value);
  }

  /** The Provider pattern matches a `<Provider store={store}>` block whose body holds
      no '<', all of it. */
  lemma ProviderBlockMatches(s: string, p: nat, body: string)
    requires OccursAt(s, ProviderTag + body + ProviderClose, p) && '<' !in body
    ensures ProviderBlockAt(s, p) == Some(p + |ProviderTag| + |body| + 11)
  {
    Regroup(ProviderTag, body, ProviderClose);
    OccursSplit(s, ProviderTag, body + ProviderClose, p);
    OpenTagAt(s, p);
    BodyThenClose(s, p + 24, body);
  }

  lemma OpenTagAt(s: string, p: nat)
    requires OccursAt(s, ProviderTag, p)
    ensures OccursAt(s, "<Provider", p) && FindChar(s, '>', p + 9) == Some(p + 23)
  {
    ProviderTagShape();
    forall i | 0 <= i < 24 ensures s[p + i] == ProviderTag[i] {
      assert s[p..p + 24][i] == s[p + i];
    }
    assert s[p..p + 9] == ProviderTag[..9];
  }

  lemma BodyThenClose(s: string, q: nat, body: string)
    requires OccursAt(s, body + ProviderClose, q) && '<' !in body
    ensures FindChar(s, '<', q) == Some(q + |body|) && OccursAt(s, ProviderClose, q + |body|)
  {
    OccursSplit(s, body, ProviderClose, q);
    forall j | q <= j < q + |body| ensures s[j] != '<' {
      assert s[j] == s[q..q + |body|][j - q];
    }
    assert s[q + |body|] == s[q + |body|..q + |body| + 11][0];
  }

  /** The opening tag is 24 characters long and holds no '>' after its name but its last. */
  lemma ProviderTagShape()
    ensures |ProviderTag| == 24 && ProviderTag[..9] == "<Provider" && ProviderTag[23] == '>'
    ensures forall i :: 9 <= i < 23 ==> ProviderTag[i] != '>'
  {
  }

  lemma RtkAppHoldsBlock()
    ensures Contains(RtkAppText, RtkProviderBlock)
  {
    RtkBlockInLines();
    PiecesContain(RtkAppLines, '\n', 6, RtkProviderBlock, 4);
  }

  lemma RtkBlockInLines()
    ensures OccursAt(RtkAppLines[6] + "\n" + RtkAppLines[7] + "\n" + RtkAppLines[8], RtkProviderBlock, 4)
  {
    RtkBlockLines();
    var u := "    " + RtkProviderBlock;
    assert u[4..] == RtkProviderBlock;
  }

  lemma RtkBlockLines()
    ensures RtkAppLines[6] + "\n" + RtkAppLines[7] + "\n" + RtkAppLines[8] == "    " + RtkProviderBlock
  {
    Indented(ProviderTag, RtkComment, ProviderClose);
  }

  /** Three lines, the outer two indented by four spaces, are four spaces and the rest. */
  lemma Indented(a: string, b: string, c: string)
    ensures ("    " + a) + "\n" + b + "\n" + ("    " + c) == "    " + (a + ("\n" + b + "\n    ") + c)
  {
  }

  /** The block's ends, and no ';' in it. */
  lemma RtkBlockEnds()
    ensures |RtkProviderBlock| > 1 && RtkProviderBlock[0] == '<' && RtkProviderBlock[|RtkProviderBlock| - 1] == '>'
    ensures ';' !in RtkProviderBlock
  {
    ProviderTagFacts();
    RtkBodyLacksSemicolon();
  }

  lemma RtkBodyLacksOpen() ensures '<' !in RtkProviderBody {}
  lemma RtkBodyLacksSemicolon() ensures ';' !in RtkProviderBody {}
}
