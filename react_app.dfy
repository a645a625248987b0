/**
 * The react-app blueprint of the scaffolding tool: the spinner protocol that
 * wraps every step, the four steps (clone the blueprint, set the app name,
 * install dependencies, initialise a git repository) and the pipeline that
 * runs them in order.
 *
 * Every effect the tool performs through a library (the file system,
 * degit, replace-in-file, child processes, the ora spinner, the console) is
 * an `Event` appended to `Session.trace`; every answer such a library gives
 * back (does the directory exist, did the clone, the replace or a command
 * succeed) is part of the `Host` the session is created with.  Thrown errors
 * are returned as `Outcome` values.
 */
module ReactApp {
  import opened Wrappers

  // ---------------------------------------------------------------------
  // Constants of the blueprint
  // ---------------------------------------------------------------------

  /** The placeholder the template carries wherever the app's name goes. */
  const AppNameToken: string := "{{APP_NAME}}"
  /** The sub-workspace of the generated project that has its own dependencies. */
  const AppWorkspace: string := "app"
  /** The revision cloned when no git tag is given. */
  const DefaultGitTag: string := "HEAD"
  /** Output buffer of each `yarn install`: 10 MB. */
  const MaxBuffer: nat := 1024 * 1024 * 10
  /** Paths the token rewrite is told to ignore. */
  const IgnoredPaths: seq<string> := ["node_modules", ".yarn", ".git"]
  /** Pieces of the shell commands and of the file pattern. */
  const CdPrefix: string := "cd "
  const YarnInstallSuffix: string := " && yarn install"
  const GitInitSuffix: string := " && git init"
  const FilesGlob: string := "/**/*"
  /** Message of the error thrown when the target directory already exists. */
  const DirectoryExistsMessage: string := "target directory already exists"
  /** Final console lines; the leading characters are those the source file holds. */
  const SuccessLine: string := "\U{F8FF}\U{FC}\U{E7}\U{AA} Your brand spankin' new React app is ready!"
  const FailureLine: string := "\U{F8FF}\U{FC}\U{F4}\U{C5} Sorry, there was a problem creating the React app."

  // ---------------------------------------------------------------------
  // Data
  // ---------------------------------------------------------------------

  /** The options the command line passes; an absent boolean is `false`. */
  datatype Options = Options(skipYarn: bool, skipGit: bool, gitTag: Option<string>, verbose: bool)

  /** `runBlueprint(appName)` called without options. */
  const DefaultOptions: Options := Options(false, false, None, false)

  /** A JavaScript error; only its message is observed. */
  datatype Error = Error(message: string)

  /** How an awaited call settles: it resolves, or it rejects (throws) with an error. */
  datatype Outcome = Resolved | Rejected(error: Error)

  /** The answers of the outside world during one run. */
  datatype Environment = Environment(
    dirExists: bool,            // fs.existsSync(<cwd>/<appName>)
    cloneInfo: seq<string>,     // messages of degit's 'info' events during the clone
    clone: Outcome,             // emitter.clone(dir)
    replace: Outcome,           // replace({...})
    exec: string -> Outcome)    // exec(command), by command string

  /** What the process is started with: the blueprint source from the package
      manifest, the working directory, and the outside world. */
  datatype Host = Host(source: string, cwd: string, env: Environment)

  /** One observable action. */
  datatype Event =
    | SpinnerStart(text: string)
    | SpinnerSucceed(text: string)
    | SpinnerFail(text: string)
    | Clone(repo: string, target: string)
    | Info(message: string)
    | Replace(files: string, ignore: seq<string>, from: string, to: string, dot: bool)
    | Exec(command: string, maxBuffer: Option<nat>)
    | Log(line: string)
    | ErrorDump(error: Error)

  /** The four steps of the blueprint; each names the action `runCommand` runs. */
  datatype Step = CloneStep | ReplaceStep | InstallStep | GitStep

  /** The spinner texts `runCommand` is given. */
  datatype Messages = Messages(loading: string, success: string, failure: string)

  const CloneMessages: Messages :=
    Messages("Cloning blueprint repo...", "Blueprint cloned!", "Unable to clone blueprint!")
  const ReplaceMessages: Messages :=
    Messages("Setting app name...", "App name set!", "Unable to set app name!")
  const InstallMessages: Messages :=
    Messages("Installing dependencies, this could take awhile...", "Installed dependencies!",
             "Unable to install dependencies!")
  const GitMessages: Messages :=
    Messages("Initializing git repository...", "Initialized git repository!",
             "Unable to initialize git repository!")

  function MessagesOf(step: Step): Messages
  {
    match step
    case CloneStep => CloneMessages
    case ReplaceStep => ReplaceMessages
    case InstallStep => InstallMessages
    case GitStep => GitMessages
  }

  /** The events of a run and how it settled. */
  datatype Run = Run(events: seq<Event>, outcome: Outcome)

  // ---------------------------------------------------------------------
  // Pure builders
  // ---------------------------------------------------------------------

  /** `path.join(process.cwd(), appName)`, without normalisation. */
  function TargetDir(cwd: string, appName: string): (d: string)
    ensures |d| == |cwd| + 1 + |appName|
    ensures d[..|cwd|] == cwd && d[|cwd|] == '/' && d[|cwd| + 1..] == appName
  {
    cwd + "/" + appName
  }

  /** The tag `options.gitTag || DEFAULT_GIT_TAG` selects. */
  function EffectiveTag(gitTag: Option<string>): (tag: string)
    ensures tag != ""
    ensures gitTag.Some? && gitTag.value != "" ==> tag == gitTag.value
    ensures gitTag.None? || gitTag.value == "" ==> tag == DefaultGitTag
  {
    if gitTag.Some? && gitTag.value != "" then gitTag.value else DefaultGitTag
  }

  /** The degit reference: the blueprint source, '#', then the tag. */
  function RepoRef(source: string, gitTag: Option<string>): (r: string)
    ensures |r| > |source| + 1
    ensures r[..|source|] == source && r[|source|] == '#'
    ensures r[|source| + 1..] == EffectiveTag(gitTag)
  {
    source + "#" + EffectiveTag(gitTag)
  }

  /** The text of a failing spinner: the failure message, a space, then the
      error's message in parentheses when it has one. */
  function FailureText(failureMsg: string, err: Error): (t: string)
    ensures |t| > |failureMsg|
    ensures t[..|failureMsg| + 1] == failureMsg + " "
    ensures err.message == "" <==> t == failureMsg + " "
    ensures err.message != "" ==> t[|failureMsg| + 1..] == "(" + err.message + ")"
  {
    failureMsg + " " + (if err.message != "" then "(" + err.message + ")" else "")
  }

  /** The shell command that installs the dependencies of the workspace at `dir`. */
  function InstallCommand(dir: string): (c: string)
    ensures |c| == |CdPrefix| + |dir| + |YarnInstallSuffix|
    ensures c[..|CdPrefix|] == CdPrefix && c[|c| - |YarnInstallSuffix|..] == YarnInstallSuffix
  {
    CdPrefix + dir + YarnInstallSuffix
  }

  /** The shell command that creates a git repository at `dir`. */
  function GitInitCommand(dir: string): (c: string)
    ensures |c| == |CdPrefix| + |dir| + |GitInitSuffix|
    ensures c[..|CdPrefix|] == CdPrefix && c[|c| - |GitInitSuffix|..] == GitInitSuffix
  {
    CdPrefix + dir + GitInitSuffix
  }

  /** Global replacement of the literal `from` in `s`: matches are found left
      to right, do not overlap, and the inserted text is not scanned again. */
  function ReplaceAll(s: string, from: string, to: string): (r: string)
    requires from != []
    ensures |s| < |from| ==> r == s
    decreases |s|
  {
    if |s| < |from| then s
    else if s[..|from|] == from then to + ReplaceAll(s[|from|..], from, to)
    else [s[0]] + ReplaceAll(s[1..], from, to)
  }

  /** What the token rewrite does to the text of one file it visits. */
  function RewriteText(text: string, appName: string): (r: string)
    ensures text == AppNameToken ==> r == appName
  {
    ReplaceAll(text, AppNameToken, appName)
  }

  // ---------------------------------------------------------------------
  // Specification of the steps
  // ---------------------------------------------------------------------

  /** The console echo of degit's info messages: each one, in order, when verbose. */
  function Echoed(infos: seq<string>, verbose: bool): seq<Event>
  {
    if infos == [] then []
    else Echoed(infos[..|infos| - 1], verbose) + (if verbose then [Info(infos[|infos| - 1])] else [])
  }

  /** What the action that `runCommand` awaits does for `step`. */
  function ActionRun(step: Step, appName: string, options: Options, host: Host): Run
  {
    var dir := TargetDir(host.cwd, appName);
    match step
    case CloneStep =>
      if host.env.dirExists then Run([], Rejected(Error(DirectoryExistsMessage)))
      else
        Run([Clone(RepoRef(host.source, options.gitTag), dir)] + Echoed(host.env.cloneInfo, options.verbose),
            host.env.clone)
    case ReplaceStep =>
      Run([Replace(dir + FilesGlob, IgnoredPaths, AppNameToken, appName, true)], host.env.replace)
    case InstallStep =>
      var rootCommand := InstallCommand(dir);
      var appCommand := InstallCommand(dir + "/" + AppWorkspace);
      if host.env.exec(rootCommand).Rejected? then
        Run([Exec(rootCommand, Some(MaxBuffer))], host.env.exec(rootCommand))
      else
        Run([Exec(rootCommand, Some(MaxBuffer)), Exec(appCommand, Some(MaxBuffer))], host.env.exec(appCommand))
    case GitStep =>
      var command := GitInitCommand(dir);
      Run([Exec(command, None)], host.env.exec(command))
  }

  /** The spinner event that ends a command that settled with `outcome`. */
  function Terminal(msgs: Messages, outcome: Outcome): Event
  {
    match outcome
    case Resolved => SpinnerSucceed(msgs.success)
    case Rejected(err) => SpinnerFail(FailureText(msgs.failure, err))
  }

  /** `runCommand(action, msgs)`: start, the action, then succeed or fail; the
      action's outcome is passed on unchanged. */
  function CommandRun(step: Step, msgs: Messages, appName: string, options: Options, host: Host): Run
  {
    var action := ActionRun(step, appName, options, host);
    Run([SpinnerStart(msgs.loading)] + action.events + [Terminal(msgs, action.outcome)], action.outcome)
  }

  /** Whether the options make `step` return at once. */
  predicate Skipped(step: Step, options: Options)
  {
    (step == InstallStep && options.skipYarn) || (step == GitStep && options.skipGit)
  }

  /** One step as `runBlueprint` awaits it. */
  function StepRun(step: Step, appName: string, options: Options, host: Host): Run
  {
    if Skipped(step, options) then Run([], Resolved)
    else CommandRun(step, MessagesOf(step), appName, options, host)
  }

  /** How each of the four steps would run, in the order `runBlueprint`
      awaits them.  A step that comes after a failure is never awaited:
      `Pipeline` drops its run. */
  function BlueprintRuns(appName: string, options: Options, host: Host): seq<Run>
  {
    [StepRun(CloneStep, appName, options, host), StepRun(ReplaceStep, appName, options, host),
     StepRun(InstallStep, appName, options, host), StepRun(GitStep, appName, options, host)]
  }

  /** Awaiting runs in order: up to and including the first that rejects. */
  function Pipeline(runs: seq<Run>): (r: Run)
    ensures r.outcome.Resolved? <==> forall i :: 0 <= i < |runs| ==> runs[i].outcome.Resolved?
  {
    if runs == [] then Run([], Resolved)
    else if runs[0].outcome.Rejected? then runs[0]
    else
      var rest := Pipeline(runs[1..]);
      Run(runs[0].events + rest.events, rest.outcome)
  }

  /** A pipeline of four runs, written out. */
  lemma PipelineOfFour(r1: Run, r2: Run, r3: Run, r4: Run)
    ensures Pipeline([r1, r2, r3, r4])
            == if r1.outcome.Rejected? then r1
               else if r2.outcome.Rejected? then Run(r1.events + r2.events, r2.outcome)
               else if r3.outcome.Rejected? then Run(r1.events + r2.events + r3.events, r3.outcome)
               else Run(r1.events + r2.events + r3.events + r4.events, r4.outcome)
  {
    assert [r4][1..] == [];
    assert [r3, r4][1..] == [r4];
    assert [r2, r3, r4][1..] == [r3, r4];
    assert [r1, r2, r3, r4][1..] == [r2, r3, r4];
    assert Pipeline([]) == Run([], Resolved);
    assert r4.events + [] == r4.events;
    var p4 := Pipeline([r4]);
    assert p4 == if r4.outcome.Rejected? then r4 else Run(r4.events, Resolved);
    var p3 := Pipeline([r3, r4]);
    assert p3 == if r3.outcome.Rejected? then r3 else Run(r3.events + p4.events, p4.outcome);
    var p2 := Pipeline([r2, r3, r4]);
    assert p2 == if r2.outcome.Rejected? then r2 else Run(r2.events + p3.events, p3.outcome);
    AppendAssoc(r1.events, r2.events, r3.events);
    AppendAssoc(r1.events + r2.events, r3.events, r4.events);
    AppendAssoc(r2.events, r3.events, r4.events);
    AppendAssoc(r1.events, r2.events, r3.events + r4.events);
  }

  lemma AppendAssoc<T>(a: seq<T>, b: seq<T>, c: seq<T>)
    ensures a + (b + c) == a + b + c
  {
  }

  lemma AppendAssoc3<T>(s: seq<T>, a: seq<T>, b: seq<T>, c: seq<T>)
    ensures s + a + b + c == s + (a + b + c)
  {
  }

  lemma AppendAssoc4<T>(s: seq<T>, a: seq<T>, b: seq<T>, c: seq<T>, d: seq<T>)
    ensures s + a + b + c + d == s + (a + b + c + d)
  {
  }

  /** The last lines `runBlueprint` logs once its steps have settled. */
  function Report(outcome: Outcome, verbose: bool): (r: seq<Event>)
    ensures r != [] && r[0] == Log(if outcome.Resolved? then SuccessLine else FailureLine)
    ensures |r| == 2 <==> outcome.Rejected? && verbose
    ensures |r| == 2 ==> r[1] == ErrorDump(outcome.error)
  {
    match outcome
    case Resolved => [Log(SuccessLine)]
    case Rejected(err) => [Log(FailureLine)] + (if verbose then [ErrorDump(err)] else [])
  }

  /** Everything `runBlueprint` does: the pipeline, then its report. */
  function BlueprintEvents(appName: string, options: Options, host: Host): seq<Event>
  {
    var run := Pipeline(BlueprintRuns(appName, options, host));
    run.events + Report(run.outcome, options.verbose)
  }

  // ---------------------------------------------------------------------
  // The blueprint as it runs
  // ---------------------------------------------------------------------

  /** One process running the blueprint: what it was started with and the
      trace of everything it has done so far. */
  class Session {
    const host: Host
    var trace: seq<Event>

    constructor (host: Host)
      ensures this.host == host && trace == []
    {
      this.host := host;
      trace := [];
    }

    /** The body of the closure each step hands to `runCommand`. */
    method Perform(step: Step, appName: string, options: Options) returns (r: Outcome)
      modifies this
      ensures trace == old(trace) + ActionRun(step, appName, options, host).events
      ensures r == ActionRun(step, appName, options, host).outcome
    {
      var dir := TargetDir(host.cwd, appName);
      match step
      case CloneStep =>
        if host.env.dirExists {
          return Rejected(Error(DirectoryExistsMessage));
        }
        var repo := RepoRef(host.source, options.gitTag);
        trace := trace + [Clone(repo, dir)];
        ghost var before := trace;
        var infos := host.env.cloneInfo;
        var i := 0;
        while i < |infos|
          invariant 0 <= i <= |infos|
          invariant trace == before + Echoed(infos[..i], options.verbose)
        {
          assert infos[..i + 1][..i] == infos[..i];
          if options.verbose {
            trace := trace + [Info(infos[i])];
          }
          i := i + 1;
        }
        assert infos[..i] == infos;
        r := host.env.clone;
      case ReplaceStep =>
        trace := trace + [Replace(dir + FilesGlob, IgnoredPaths, AppNameToken, appName, true)];
        r := host.env.replace;
      case InstallStep =>
        var rootCommand := InstallCommand(dir);
        var appCommand := InstallCommand(dir + "/" + AppWorkspace);
        trace := trace + [Exec(rootCommand, Some(MaxBuffer))];
        r := host.env.exec(rootCommand);
        if r.Rejected? {
          return;
        }
        trace := trace + [Exec(appCommand, Some(MaxBuffer))];
        r := host.env.exec(appCommand);
      case GitStep =>
        var command := GitInitCommand(dir);
        trace := trace + [Exec(command, None)];
        r := host.env.exec(command);
    }

    /** `runCommand`: start the spinner, await the action, then succeed, or
        fail and rethrow the same error. */
    method RunCommand(step: Step, msgs: Messages, appName: string, options: Options) returns (r: Outcome)
      modifies this
      ensures trace == old(trace) + CommandRun(step, msgs, appName, options, host).events
      ensures r == CommandRun(step, msgs, appName, options, host).outcome
    {
      ghost var action := ActionRun(step, appName, options, host);
      ghost var before := trace;
      trace := trace + [SpinnerStart(msgs.loading)];
      r := Perform(step, appName, options);
      if r.Resolved? {
        trace := trace + [SpinnerSucceed(msgs.success)];
      } else {
        trace := trace + [SpinnerFail(FailureText(msgs.failure, r.error))];
      }
      assert trace == before + [SpinnerStart(msgs.loading)] + action.events + [Terminal(msgs, r)];
      AppendAssoc3(before, [SpinnerStart(msgs.loading)], action.events, [Terminal(msgs, r)]);
    }

    method CloneRepo(appName: string, options: Options) returns (r: Outcome)
      modifies this
      ensures trace == old(trace) + StepRun(CloneStep, appName, options, host).events
      ensures r == StepRun(CloneStep, appName, options, host).outcome
    {
      r := RunCommand(CloneStep, MessagesOf(CloneStep), appName, options);
    }

    method ReplaceTokens(appName: string, options: Options) returns (r: Outcome)
      modifies this
      ensures trace == old(trace) + StepRun(ReplaceStep, appName, options, host).events
      ensures r == StepRun(ReplaceStep, appName, options, host).outcome
    {
      r := RunCommand(ReplaceStep, MessagesOf(ReplaceStep), appName, options);
    }

    method InstallDependencies(appName: string, options: Options) returns (r: Outcome)
      modifies this
      ensures trace == old(trace) + StepRun(InstallStep, appName, options, host).events
      ensures r == StepRun(InstallStep, appName, options, host).outcome
    {
      if options.skipYarn {
        return Resolved;
      }
      r := RunCommand(InstallStep, MessagesOf(InstallStep), appName, options);
    }

    method InitGitRepo(appName: string, options: Options) returns (r: Outcome)
      modifies this
      ensures trace == old(trace) + StepRun(GitStep, appName, options, host).events
      ensures r == StepRun(GitStep, appName, options, host).outcome
    {
      if options.skipGit {
        return Resolved;
      }
      r := RunCommand(GitStep, MessagesOf(GitStep), appName, options);
    }

    /** The `try` block of `runBlueprint`: the four steps in order, stopping
        at the first that throws. */
    method AwaitSteps(appName: string, options: Options) returns (r: Outcome)
      modifies this
      ensures trace == old(trace) + Pipeline(BlueprintRuns(appName, options, host)).events
      ensures r == Pipeline(BlueprintRuns(appName, options, host)).outcome
    {
      ghost var start := trace;
      ghost var c := StepRun(CloneStep, appName, options, host);
      ghost var n := StepRun(ReplaceStep, appName, options, host);
      ghost var i := StepRun(InstallStep, appName, options, host);
      ghost var g := StepRun(GitStep, appName, options, host);
      ghost var run := Pipeline([c, n, i, g]);
      PipelineOfFour(c, n, i, g);
      r := CloneRepo(appName, options);
      if r.Resolved? {
        r := ReplaceTokens(appName, options);
        if r.Resolved? {
          r := InstallDependencies(appName, options);
          if r.Resolved? {
            r := InitGitRepo(appName, options);
            assert trace == start + c.events + n.events + i.events + g.events;
            AppendAssoc4(start, c.events, n.events, i.events, g.events);
            assert run.events == c.events + n.events + i.events + g.events;
          } else {
            assert trace == start + c.events + n.events + i.events;
            AppendAssoc3(start, c.events, n.events, i.events);
            assert run.events == c.events + n.events + i.events;
          }
        } else {
          assert trace == start + c.events + n.events;
          AppendAssoc(start, c.events, n.events);
          assert run.events == c.events + n.events;
        }
      } else {
        assert run.events == c.events;
      }
      assert trace == start + run.events;
    }

    /** `runBlueprint`: the steps, then one final line and, when verbose, the
        error that stopped them.  It reports instead of rejecting, so it
        returns nothing. */
    method RunBlueprint(appName: string, options: Options)
      modifies this
      ensures trace == old(trace) + BlueprintEvents(appName, options, host)
    {
      ghost var run := Pipeline(BlueprintRuns(appName, options, host));
      var r := AwaitSteps(appName, options);
      ghost var mid := trace;
      ghost var report := Report(r, options.verbose);
      if r.Resolved? {
        trace := trace + [Log(SuccessLine)];
        assert report == [Log(SuccessLine)];
      } else {
        trace := trace + [Log(FailureLine)];
        if options.verbose {
          trace := trace + [ErrorDump(r.error)];
          assert report == [Log(FailureLine), ErrorDump(r.error)];
        } else {
          assert report == [Log(FailureLine)];
        }
      }
      assert trace == mid + report;
      AppendAssoc(old(trace), run.events, report);
    }
  }
}
