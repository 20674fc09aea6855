/** createProject: scaffold a Tauri app, change into it, install the extra packages the
    chosen features need, run the feature setups in a fixed order, append to
    .gitignore, change back and check progress. Every step is an effect on a process
    whose working directory it may change; a step that throws ends the run, since
    nothing catches it. */
module Create {
  import opened JsText

  // ---------------------------------------------------------------------------
  // Effects

  /** The steps createProject performs, named by what they do. The shell command
      strings and the bodies of the setups are not spelled out here. */
  datatype Action =
    | Scaffold(name: string, template: string)
    | ChangeDir(target: string)
    | NpmInstall(packages: seq<string>)
    | SetupRtk(template: string)
    | SetupRouter(template: string)
    | SetupEslint(template: string)
    | WriteFile(path: string)
    | AppendGitignore(text: string)
    | CheckProgress(name: string, features: seq<string>)

  /** An action together with the working directory it ran in. */
  datatype Effect = Effect(dir: string, action: Action)

  /** The process as the run sees it: its working directory, the effects attempted so
      far, and whether an exception is propagating. */
  datatype State = State(cwd: string, log: seq<Effect>, thrown: bool)

  predicate IsAbsolute(path: string)
  {
    |path| > 0 && path[0] == '/'
  }

  /** process.chdir(target): an absolute target replaces the directory, a relative one
      is appended to it. */
  function Resolve(cwd: string, target: string): string
  {
    if IsAbsolute(target) then target else cwd + "/" + target
  }

  /** The working directory after an action completes. */
  function After(cwd: string, a: Action): string
  {
    if a.ChangeDir? then Resolve(cwd, a.target) else cwd
  }

  /** One step: nothing happens once an exception is propagating; the step at position
      failAt of the log throws (it was attempted, but has no effect on the directory);
      any other step completes. */
  function Step(s: State, a: Action, failAt: nat): State
  {
    if s.thrown then s
    else if |s.log| == failAt then State(s.cwd, s.log + [Effect(s.cwd, a)], true)
    else State(After(s.cwd, a), s.log + [Effect(s.cwd, a)], false)
  }

  /** The steps acts, one after the other. */
  function Exec(s: State, acts: seq<Action>, failAt: nat): State
    decreases |acts|
  {
    if |acts| == 0 then s
    else Step(Exec(s, acts[..|acts| - 1], failAt), acts[|acts| - 1], failAt)
  }

  /** The working directory after the actions acts all complete. */
  function CwdAfter(cwd: string, acts: seq<Action>): string
    decreases |acts|
  {
    if |acts| == 0 then cwd else After(CwdAfter(cwd, acts[..|acts| - 1]), acts[|acts| - 1])
  }

  /** The effects of the actions acts when they all complete. */
  function Trace(cwd: string, acts: seq<Action>): (t: seq<Effect>)
    ensures |t| == |acts|
    decreases |acts|
  {
    if |acts| == 0 then []
    else
      var init := acts[..|acts| - 1];
      Trace(cwd, init) + [Effect(CwdAfter(cwd, init), acts[|acts| - 1])]
  }

  // ---------------------------------------------------------------------------
  // The process

  class Process {
    var cwd: string
    var log: seq<Effect>
    var thrown: bool
    /** The position in the log of the step that throws; past the end, none does. */
    const failAt: nat

    function Snapshot(): State
      reads this
    {
      State(cwd, log, thrown)
    }

    constructor (cwd: string, failAt: nat)
      ensures Snapshot() == State(cwd, [], false) && this.failAt == failAt
    {
      this.cwd := cwd;
      this.log := [];
      this.thrown := false;
      this.failAt := failAt;
    }

    /** Perform one action in the current directory. Once an exception is propagating
        this does nothing: it stands for the statements the exception skips. */
    method Run(a: Action)
      modifies this
      ensures Snapshot() == Step(old(Snapshot()), a, failAt)
    {
      if thrown {
        return;
      }
      log := log + [Effect(cwd, a)];
      if |log| - 1 == failAt {
        thrown := true;
      } else if a.ChangeDir? {
        cwd := Resolve(cwd, a.target);
      }
    }
  }

  // ---------------------------------------------------------------------------
  // The plan of a run

  const RtkPackages: seq<string> := ["@reduxjs/toolkit", "react-redux"]
  const RouterPackages: seq<string> := ["react-router-dom"]

  /** The packages npm installs: the Redux Toolkit pair for rtk, then react-router-dom
      for router. */
  function Dependencies(features: seq<string>): seq<string>
  {
    (if "rtk" in features then RtkPackages else [])
    + (if "router" in features then RouterPackages else [])
  }

  /** The install step, present only when there is something to install. */
  function InstallStep(features: seq<string>): seq<Action>
  {
    var deps := Dependencies(features);
    if |deps| > 0 then [NpmInstall(deps)] else []
  }

  const ApiBackendPath := "src-tauri/src/commands.rs"

  /** The two files createApiExample writes: the front-end module, .ts for the
      TypeScript template and .js otherwise, then the Rust command. */
  function ApiWrites(template: string): seq<Action>
  {
    var ext := if template == "react-ts" then "ts" else "js";
    [WriteFile("src/api/index." + ext), WriteFile(ApiBackendPath)]
  }

  /** The feature setups in their fixed order: rtk, router, eslint, api. */
  function FeatureSteps(template: string, features: seq<string>): seq<Action>
  {
    Optional("rtk" in features, [SetupRtk(template)])
    + Optional("router" in features, [SetupRouter(template)])
    + Optional("eslint" in features, [SetupEslint(template)])
    + Optional("api" in features, ApiWrites(template))
  }

  /** The actions of a feature that was selected, nothing otherwise. */
  function Optional(selected: bool, acts: seq<Action>): seq<Action>
  {
    if selected then acts else []
  }

  const GitignoreExtra := "\npackage-lock.json\nyarn.lock"

  /** Every action of a run that nothing interrupts, in order; home is the directory
      the run starts in. */
  function Plan(name: string, template: string, features: seq<string>, home: string): seq<Action>
  {
    [Scaffold(name, template), ChangeDir(name)]
    + InstallStep(features)
    + FeatureSteps(template, features)
    + [AppendGitignore(GitignoreExtra), ChangeDir(home), CheckProgress(name, features)]
  }

  // ---------------------------------------------------------------------------
  // The run

  lemma ExecSnoc(s: State, acts: seq<Action>, a: Action, failAt: nat)
    ensures Exec(s, acts + [a], failAt) == Step(Exec(s, acts, failAt), a, failAt)
  {
    assert (acts + [a])[..|acts|] == acts;
  }

  lemma {:induction false} ExecAppend(s: State, xs: seq<Action>, ys: seq<Action>, failAt: nat)
    ensures Exec(s, xs + ys, failAt) == Exec(Exec(s, xs, failAt), ys, failAt)
    decreases |ys|
  {
    if |ys| == 0 {
      assert xs + ys == xs;
    } else {
      var init := ys[..|ys| - 1];
      var last := ys[|ys| - 1];
      assert xs + ys == (xs + init) + [last];
      assert ys == init + [last];
      ExecSnoc(s, xs + init, last, failAt);
      ExecAppend(s, xs, init, failAt);
      ExecSnoc(Exec(s, xs, failAt), init, last, failAt);
    }
  }

  /** The dependency list, grown with push as the features are checked. */
  method CollectDependencies(features: seq<string>) returns (deps: seq<string>)
    ensures deps == Dependencies(features)
  {
    deps := [];
    if "rtk" in features {
      deps := deps + ["@reduxjs/toolkit", "react-redux"];
    }
    if "router" in features {
      deps := deps + ["react-router-dom"];
    }
  }

  /** createApiExample(template): the two example files, written one after the other. */
  method CreateApiExample(p: Process, template: string)
    modifies p
    ensures p.Snapshot() == Exec(old(p.Snapshot()), ApiWrites(template), p.failAt)
  {
    var ext := if template == "react-ts" then "ts" else "js";
    ghost var s0 := p.Snapshot();
    p.Run(WriteFile("src/api/index." + ext));
    ExecSnoc(s0, [], WriteFile("src/api/index." + ext), p.failAt);
    p.Run(WriteFile(ApiBackendPath));
    ExecSnoc(s0, [WriteFile("src/api/index." + ext)], WriteFile(ApiBackendPath), p.failAt);
  }

  /** One setup, run when its feature is selected. */
  method RunIf(p: Process, selected: bool, a: Action)
    modifies p
    ensures p.Snapshot() == Exec(old(p.Snapshot()), Optional(selected, [a]), p.failAt)
  {
    if selected {
      ghost var s0 := p.Snapshot();
      p.Run(a);
      ExecSnoc(s0, [], a, p.failAt);
    }
  }

  /** The feature setups of createProject, in their fixed order. */
  method RunFeatureSetups(p: Process, template: string, features: seq<string>)
    modifies p
    ensures p.Snapshot() == Exec(old(p.Snapshot()), FeatureSteps(template, features), p.failAt)
  {
    ghost var s0 := p.Snapshot();
    ghost var b0 := Optional("rtk" in features, [SetupRtk(template)]);
    ghost var b1 := Optional("router" in features, [SetupRouter(template)]);
    ghost var b2 := Optional("eslint" in features, [SetupEslint(template)]);
    ghost var b3 := Optional("api" in features, ApiWrites(template));
    RunIf(p, "rtk" in features, SetupRtk(template));
    RunIf(p, "router" in features, SetupRouter(template));
    ExecAppend(s0, b0, b1, p.failAt);
    RunIf(p, "eslint" in features, SetupEslint(template));
    ExecAppend(s0, b0 + b1, b2, p.failAt);
    if "api" in features {
      CreateApiExample(p, template);
    }
    ExecAppend(s0, b0 + b1 + b2, b3, p.failAt);
    assert b0 + b1 + b2 + b3 == FeatureSteps(template, features);
  }

  /** The dependency install, run only when some feature needs packages. */
  method RunInstall(p: Process, features: seq<string>)
    modifies p
    ensures p.Snapshot() == Exec(old(p.Snapshot()), InstallStep(features), p.failAt)
  {
    var dependencies := CollectDependencies(features);
    RunIf(p, |dependencies| > 0, NpmInstall(dependencies));
  }

  /** The closing steps: extend .gitignore, return to the starting directory, report. */
  method FinishRun(p: Process, name: string, features: seq<string>, home: string)
    modifies p
    ensures p.Snapshot() == Exec(old(p.Snapshot()),
      [AppendGitignore(GitignoreExtra), ChangeDir(home), CheckProgress(name, features)], p.failAt)
  {
    ghost var s0 := p.Snapshot();
    ghost var done: seq<Action> := [];
    p.Run(AppendGitignore(GitignoreExtra));
    ExecSnoc(s0, done, AppendGitignore(GitignoreExtra), p.failAt);
    done := done + [AppendGitignore(GitignoreExtra)];
    p.Run(ChangeDir(home));
    ExecSnoc(s0, done, ChangeDir(home), p.failAt);
    done := done + [ChangeDir(home)];
    p.Run(CheckProgress(name, features));
    ExecSnoc(s0, done, CheckProgress(name, features), p.failAt);
    done := done + [CheckProgress(name, features)];
    assert done == [AppendGitignore(GitignoreExtra), ChangeDir(home), CheckProgress(name, features)];
  }

  /** createProject(projectName, { template, features }) on the process p. */
  method CreateProject(p: Process, name: string, template: string, features: seq<string>)
    modifies p
    ensures p.Snapshot() == Exec(old(p.Snapshot()), Plan(name, template, features, old(p.cwd)), p.failAt)
  {
    ghost var s0 := p.Snapshot();
    p.Run(Scaffold(name, template));
    ExecSnoc(s0, [], Scaffold(name, template), p.failAt);

    var originalCwd := p.cwd;
    assert originalCwd == s0.cwd;
    p.Run(ChangeDir(name));
    ExecSnoc(s0, [Scaffold(name, template)], ChangeDir(name), p.failAt);
    ghost var done := [Scaffold(name, template), ChangeDir(name)];

    RunInstall(p, features);
    ExecAppend(s0, done, InstallStep(features), p.failAt);
    done := done + InstallStep(features);

    RunFeatureSetups(p, template, features);
    ExecAppend(s0, done, FeatureSteps(template, features), p.failAt);
    done := done + FeatureSteps(template, features);

    FinishRun(p, name, features, originalCwd);
    ExecAppend(s0, done,
      [AppendGitignore(GitignoreExtra), ChangeDir(originalCwd), CheckProgress(name, features)], p.failAt);
  }

  // ---------------------------------------------------------------------------
  // Fail-fast: what a run leaves behind

  /** Where no step throws, every action completes and is logged in the directory it
      ran in. */
  lemma {:induction false} ExecCompletes(s: State, acts: seq<Action>, failAt: nat)
    requires !s.thrown
    requires failAt < |s.log| || |s.log| + |acts| <= failAt
    ensures Exec(s, acts, failAt) == State(CwdAfter(s.cwd, acts), s.log + Trace(s.cwd, acts), false)
    decreases |acts|
  {
    if |acts| > 0 {
      ExecCompletes(s, acts[..|acts| - 1], failAt);
    }
  }

  /** Where the k-th action throws, the actions before it complete, it is attempted,
      and nothing after it happens; the directory is the one before the failing step. */
  lemma {:induction false} ExecStopsAt(s: State, acts: seq<Action>, failAt: nat)
    requires !s.thrown
    requires |s.log| <= failAt < |s.log| + |acts|
    ensures var k := failAt - |s.log|;
      Exec(s, acts, failAt) == State(CwdAfter(s.cwd, acts[..k]), s.log + Trace(s.cwd, acts[..k + 1]), true)
    decreases |acts|
  {
    var k := failAt - |s.log|;
    var init := acts[..|acts| - 1];
    if k == |acts| - 1 {
      ExecCompletes(s, init, failAt);
      assert acts[..k] == init;
      assert acts[..k + 1] == acts;
    } else {
      ExecStopsAt(s, init, failAt);
      assert init[..k] == acts[..k];
      assert init[..k + 1] == acts[..k + 1];
    }
  }

  /** The i-th logged effect ran in the directory the first i actions left. */
  lemma {:induction false} TraceDirs(cwd: string, acts: seq<Action>, i: nat)
    requires i < |acts|
    ensures Trace(cwd, acts)[i] == Effect(CwdAfter(cwd, acts[..i]), acts[i])
    decreases |acts|
  {
    var init := acts[..|acts| - 1];
    if i < |acts| - 1 {
      TraceDirs(cwd, init, i);
      assert init[..i] == acts[..i];
    } else {
      assert acts[..i] == init;
    }
  }

  // ---------------------------------------------------------------------------
  // The shape of the plan

  /** The project directory a run changes into. */
  function ProjectDir(home: string, name: string): string
  {
    Resolve(home, name)
  }

  /** The steps between entering the project and leaving it neither change the
      directory nor check progress. */
  lemma MiddleOrdinary(template: string, features: seq<string>)
    ensures forall a :: a in InstallStep(features) + FeatureSteps(template, features)
                        ==> !a.ChangeDir? && !a.CheckProgress?
  {
    assert forall a :: a in ApiWrites(template) ==> a.WriteFile?;
  }

  /** Indexing into the middle part of a three-part sequence. */
  lemma MiddleIndex(head: seq<Action>, mid: seq<Action>, tail: seq<Action>, i: nat)
    requires |head| <= i < |head| + |mid|
    ensures (head + mid + tail)[i] == mid[i - |head|]
  {
  }

  /** Only the second action and the second-to-last change the directory, and only the
      last checks progress. */
  lemma PlanLandmarks(name: string, template: string, features: seq<string>, home: string)
    ensures var p := Plan(name, template, features, home);
      |p| >= 5 && p[0] == Scaffold(name, template) && p[1] == ChangeDir(name)
    ensures var p := Plan(name, template, features, home);
      p[|p| - 3] == AppendGitignore(GitignoreExtra) && p[|p| - 2] == ChangeDir(home)
      && p[|p| - 1] == CheckProgress(name, features)
    ensures var p := Plan(name, template, features, home);
      forall i :: 2 <= i < |p| - 2 ==> !p[i].ChangeDir?
    ensures var p := Plan(name, template, features, home);
      forall i :: 0 <= i < |p| - 1 ==> !p[i].CheckProgress?
  {
    var p := Plan(name, template, features, home);
    var head := [Scaffold(name, template), ChangeDir(name)];
    var mid := InstallStep(features) + FeatureSteps(template, features);
    var tail := [AppendGitignore(GitignoreExtra), ChangeDir(home), CheckProgress(name, features)];
    assert p == head + mid + tail;
    MiddleOrdinary(template, features);
    forall i | 2 <= i < |p| - 3 ensures !p[i].ChangeDir? && !p[i].CheckProgress? {
      MiddleIndex(head, mid, tail, i);
      assert p[i] in mid;
    }
  }

  /** Before the second action completes and from the second-to-last on, the run is in
      its starting directory; in between it is in the project directory. */
  lemma {:induction false} PlanCwd(name: string, template: string, features: seq<string>, home: string, k: nat)
    requires IsAbsolute(home)
    requires k <= |Plan(name, template, features, home)|
    ensures var p := Plan(name, template, features, home);
      CwdAfter(home, p[..k]) == if 2 <= k <= |p| - 2 then ProjectDir(home, name) else home
    decreases k
  {
    var p := Plan(name, template, features, home);
    PlanLandmarks(name, template, features, home);
    if k > 0 {
      PlanCwd(name, template, features, home, k - 1);
      assert p[..k][..k - 1] == p[..k - 1];
      assert p[..k][k - 1] == p[k - 1];
    }
  }

  /** A run that nothing interrupts ends in the starting directory, having logged the
      whole plan: scaffolding and the first change of directory in the starting
      directory, everything up to and including the change back in the project
      directory, and the progress check back home. */
  lemma CompletedRun(name: string, template: string, features: seq<string>, home: string,
                     log0: seq<Effect>, failAt: nat)
    requires IsAbsolute(home)
    requires failAt < |log0| || |log0| + |Plan(name, template, features, home)| <= failAt
    ensures var p := Plan(name, template, features, home);
      var s := Exec(State(home, log0, false), p, failAt);
      !s.thrown && s.cwd == home && s.log == log0 + Trace(home, p)
    ensures var p := Plan(name, template, features, home);
      var s := Exec(State(home, log0, false), p, failAt);
      forall i :: |log0| + 2 <= i < |log0| + |p| - 1 ==> s.log[i].dir == ProjectDir(home, name)
    ensures var p := Plan(name, template, features, home);
      var s := Exec(State(home, log0, false), p, failAt);
      s.log[|log0| + |p| - 1] == Effect(home, CheckProgress(name, features))
  {
    var p := Plan(name, template, features, home);
    ExecCompletes(State(home, log0, false), p, failAt);
    PlanCwd(name, template, features, home, |p|);
    assert p[..|p|] == p;
    PlanLandmarks(name, template, features, home);
    forall i | 2 <= i < |p| ensures Trace(home, p)[i].dir == if i <= |p| - 2 then ProjectDir(home, name) else home {
      TraceDirs(home, p, i);
      PlanCwd(name, template, features, home, i);
    }
  }

  /** A run whose k-th action throws stops there: nothing after it is logged, the
      progress check never runs unless it is the step that throws, and the directory
      is not restored when the throw comes between the two changes of directory. */
  lemma FailedRun(name: string, template: string, features: seq<string>, home: string,
                  log0: seq<Effect>, failAt: nat)
    requires IsAbsolute(home)
    requires |log0| <= failAt < |log0| + |Plan(name, template, features, home)|
    ensures var p := Plan(name, template, features, home);
      var s := Exec(State(home, log0, false), p, failAt);
      s.thrown && |s.log| == failAt + 1 && s.log[failAt].action == p[failAt - |log0|]
    ensures var p := Plan(name, template, features, home);
      var s := Exec(State(home, log0, false), p, failAt);
      forall i :: |log0| <= i < failAt ==> !s.log[i].action.CheckProgress?
    ensures var p := Plan(name, template, features, home);
      var s := Exec(State(home, log0, false), p, failAt);
      var k := failAt - |log0|;
      s.cwd == if 2 <= k <= |p| - 2 then ProjectDir(home, name) else home
  {
    var p := Plan(name, template, features, home);
    var k := failAt - |log0|;
    ExecStopsAt(State(home, log0, false), p, failAt);
    PlanLandmarks(name, template, features, home);
    PlanCwd(name, template, features, home, k);
    var t := Trace(home, p[..k + 1]);
    forall i | 0 <= i <= k ensures t[i].action == p[i] {
      TraceDirs(home, p[..k + 1], i);
    }
  }

  // ---------------------------------------------------------------------------
  // Features, dependencies and files

  /** Which feature a setup action belongs to, in the fixed order; 4 for other actions. */
  function Rank(a: Action): nat
  {
    match a
    case SetupRtk(_) => 0
    case SetupRouter(_) => 1
    case SetupEslint(_) => 2
    case WriteFile(_) => 3
    case _ => 4
  }

  /** Every action is a setup, and their ranks never decrease. */
  predicate RanksAscend(xs: seq<Action>)
  {
    && (forall i :: 0 <= i < |xs| ==> Rank(xs[i]) < 4)
    && (forall i, j :: 0 <= i < j < |xs| ==> Rank(xs[i]) <= Rank(xs[j]))
  }

  /** Ranks that never decrease inside the middle part of a three-part sequence, with
      nothing ranked around it, never decrease in the whole sequence. */
  lemma RanksFramed(head: seq<Action>, mid: seq<Action>, tail: seq<Action>)
    requires forall i :: 0 <= i < |head| ==> Rank(head[i]) == 4
    requires forall i :: 0 <= i < |tail| ==> Rank(tail[i]) == 4
    requires RanksAscend(mid)
    ensures var p := head + mid + tail;
      forall i, j :: 0 <= i < j < |p| && Rank(p[i]) < 4 && Rank(p[j]) < 4 ==> Rank(p[i]) <= Rank(p[j])
    ensures var p := head + mid + tail;
      forall i :: 0 <= i < |p| && Rank(p[i]) < 4 ==> |head| <= i < |head| + |mid|
  {
    var p := head + mid + tail;
    forall i | 0 <= i < |p| && Rank(p[i]) < 4 ensures |head| <= i < |head| + |mid| && p[i] == mid[i - |head|] {
    }
  }

  /** Feature setups run as rtk, router, eslint, api, whatever the order in the
      selection, all of them before the .gitignore append. */
  lemma SetupsInFixedOrder(name: string, template: string, features: seq<string>, home: string)
    ensures var p := Plan(name, template, features, home);
      forall i, j :: 0 <= i < j < |p| && Rank(p[i]) < 4 && Rank(p[j]) < 4 ==> Rank(p[i]) <= Rank(p[j])
    ensures var p := Plan(name, template, features, home);
      forall i :: 0 <= i < |p| && Rank(p[i]) < 4 ==> i < |p| - 3
  {
    var head := [Scaffold(name, template), ChangeDir(name)] + InstallStep(features);
    var tail := [AppendGitignore(GitignoreExtra), ChangeDir(home), CheckProgress(name, features)];
    var f := FeatureSteps(template, features);
    FeatureRanks(template, features);
    forall i | 0 <= i < |head| ensures Rank(head[i]) == 4 {
      if i >= 2 {
        assert head[i] == NpmInstall(Dependencies(features));
      }
    }
    assert Rank(tail[0]) == 4 && Rank(tail[1]) == 4 && Rank(tail[2]) == 4;
    assert Plan(name, template, features, home) == head + f + tail;
    RanksFramed(head, f, tail);
  }

  /** Appending an optional block of one rank, no lower than any before it, keeps ranks
      ascending. */
  lemma AscendAppend(xs: seq<Action>, selected: bool, acts: seq<Action>, r: nat)
    requires r < 4 && RanksAscend(xs) && forall i :: 0 <= i < |xs| ==> Rank(xs[i]) <= r
    requires forall i :: 0 <= i < |acts| ==> Rank(acts[i]) == r
    ensures RanksAscend(xs + Optional(selected, acts))
    ensures forall i :: 0 <= i < |xs + Optional(selected, acts)| ==> Rank((xs + Optional(selected, acts))[i]) <= r
  {
  }

  /** The rtk and router setups come in rank order, each of rank at most 1. */
  lemma RtkRouterRanks(template: string, features: seq<string>)
    ensures var b := Optional("rtk" in features, [SetupRtk(template)])
                     + Optional("router" in features, [SetupRouter(template)]);
            RanksAscend(b) && forall i :: 0 <= i < |b| ==> Rank(b[i]) <= 1
  {
    AscendAppend(Optional("rtk" in features, [SetupRtk(template)]),
                 "router" in features, [SetupRouter(template)], 1);
  }

  /** The rtk, router and eslint setups come in rank order, each of rank at most 2. */
  lemma SetupRanks(template: string, features: seq<string>)
    ensures var b := Optional("rtk" in features, [SetupRtk(template)])
                     + Optional("router" in features, [SetupRouter(template)])
                     + Optional("eslint" in features, [SetupEslint(template)]);
            RanksAscend(b) && forall i :: 0 <= i < |b| ==> Rank(b[i]) <= 2
  {
    RtkRouterRanks(template, features);
    AscendAppend(Optional("rtk" in features, [SetupRtk(template)])
                 + Optional("router" in features, [SetupRouter(template)]),
                 "eslint" in features, [SetupEslint(template)], 2);
  }

  /** Within the feature steps, ranks never decrease. */
  lemma FeatureRanks(template: string, features: seq<string>)
    ensures RanksAscend(FeatureSteps(template, features))
  {
    SetupRanks(template, features);
    AscendAppend(Optional("rtk" in features, [SetupRtk(template)])
                 + Optional("router" in features, [SetupRouter(template)])
                 + Optional("eslint" in features, [SetupEslint(template)]),
                 "api" in features, ApiWrites(template), 3);
  }


  /** Only the four known feature names matter, and not their order: two selections
      that agree on them give the same run up to the progress check, which is handed
      the selection as given. */
  lemma SelectionOrderIrrelevant(name: string, template: string, f1: seq<string>, f2: seq<string>, home: string)
    requires ("rtk" in f1 <==> "rtk" in f2) && ("router" in f1 <==> "router" in f2)
    requires ("eslint" in f1 <==> "eslint" in f2) && ("api" in f1 <==> "api" in f2)
    ensures |Plan(name, template, f1, home)| == |Plan(name, template, f2, home)|
    ensures var n := |Plan(name, template, f1, home)|;
      Plan(name, template, f1, home)[..n - 1] == Plan(name, template, f2, home)[..n - 1]
  {
    var p1, p2 := Plan(name, template, f1, home), Plan(name, template, f2, home);
    var common := [Scaffold(name, template), ChangeDir(name)] + InstallStep(f1) + FeatureSteps(template, f1)
                  + [AppendGitignore(GitignoreExtra), ChangeDir(home)];
    assert p1 == common + [CheckProgress(name, f1)];
    assert p2 == common + [CheckProgress(name, f2)];
    assert p1[..|p1| - 1] == common;
    assert p2[..|p2| - 1] == common;
  }

  /** npm install runs exactly when some package is needed, as the third action, with
      the dependency list. */
  lemma NpmOnlyWhenNeeded(name: string, template: string, features: seq<string>, home: string)
    ensures var p := Plan(name, template, features, home);
      (exists i :: 0 <= i < |p| && p[i].NpmInstall?) <==> |Dependencies(features)| > 0
    ensures var p := Plan(name, template, features, home);
      |Dependencies(features)| > 0 ==> p[2] == NpmInstall(Dependencies(features))
  {
    if |Dependencies(features)| == 0 {
      NoInstallWithoutDependencies(name, template, features, home);
    } else {
      assert Plan(name, template, features, home)[2] == NpmInstall(Dependencies(features));
    }
  }

  lemma NoInstallWithoutDependencies(name: string, template: string, features: seq<string>, home: string)
    requires |Dependencies(features)| == 0
    ensures var p := Plan(name, template, features, home);
      forall i :: 0 <= i < |p| ==> !p[i].NpmInstall?
  {
    var p := Plan(name, template, features, home);
    var f := FeatureSteps(template, features);
    assert InstallStep(features) == [];
    FeaturesAreSetups(template, features);
    forall i | 2 <= i < 2 + |f| ensures !p[i].NpmInstall? {
      assert p[i] == f[i - 2];
    }
  }

  /** Every feature step is a setup or a file write. */
  lemma FeaturesAreSetups(template: string, features: seq<string>)
    ensures forall i :: 0 <= i < |FeatureSteps(template, features)| ==>
      Rank(FeatureSteps(template, features)[i]) < 4
  {
    FeatureRanks(template, features);
  }

  /** The Redux Toolkit pair is installed exactly for rtk and react-router-dom exactly
      for router, the pair first. */
  lemma DependencyList(features: seq<string>)
    ensures "@reduxjs/toolkit" in Dependencies(features) <==> "rtk" in features
    ensures "react-redux" in Dependencies(features) <==> "rtk" in features
    ensures "react-router-dom" in Dependencies(features) <==> "router" in features
    ensures |Dependencies(features)| == (if "rtk" in features then 2 else 0) + (if "router" in features then 1 else 0)
    ensures "rtk" in features && "router" in features
            ==> Dependencies(features) == ["@reduxjs/toolkit", "react-redux", "react-router-dom"]
  {
    assert "@reduxjs/toolkit" != "react-router-dom" && "react-redux" != "react-router-dom";
  }

  /** The front-end example is index.ts exactly for the TypeScript template, index.js
      otherwise; the back-end example is always src-tauri/src/commands.rs. */
  lemma ApiPaths(template: string)
    ensures ApiWrites(template)[0] == WriteFile("src/api/index.ts") <==> template == "react-ts"
    ensures template != "react-ts" ==> ApiWrites(template)[0] == WriteFile("src/api/index.js")
    ensures ApiWrites(template)[1] == WriteFile("src-tauri/src/commands.rs")
  {
    assert "src/api/index." + "ts" == "src/api/index.ts";
    assert "src/api/index." + "js" == "src/api/index.js";
    assert "src/api/index.js"[14] != "src/api/index.ts"[14];
  }

  /** The .gitignore addition starts on a fresh line and adds the two lock files. */
  lemma GitignoreLines()
    ensures Split(GitignoreExtra, '\n') == ["", "package-lock.json", "yarn.lock"]
  {
    var lines := ["", "package-lock.json", "yarn.lock"];
    JoinThree("", "package-lock.json", "yarn.lock", '\n');
    GitignoreText();
    SplitJoin(lines, '\n');
  }

  lemma GitignoreText()
    ensures GitignoreExtra == "" + ['\n'] + "package-lock.json" + ['\n'] + "yarn.lock"
  {
  }

}
