# gavin: the react-app blueprint and the Node version gate, in Dafny

This project models two parts of `gavin`, a command-line tool that scaffolds
a React application from a blueprint repository.

**The react-app blueprint** (`blueprints/react-app.js`) runs four steps in
order, and `runCommand` wraps each of them in a terminal spinner:

1. clone the blueprint with degit into `<cwd>/<appName>`, unless that
   directory already exists;
2. rewrite the `{{APP_NAME}}` token in every file;
3. run `yarn install` at the root and then in the `app` workspace, unless
   `skipYarn` is set;
4. run `git init`, unless `skipGit` is set.

The first failing step stops the rest. `runBlueprint` then logs one final
line, success or failure, and never rethrows.

**The Node version gate** (`utils/node.js`) takes the minimum major version
from the volta version string. It aborts with exit status 1 when the running
interpreter's major version is lower. The command line has its own copy of
this gate, with the minimum fixed at 18 (`bin/index.js`).

Files:

- `react_app.dfy` (module `ReactApp`): the blueprint.
  - Its constants, options and errors.
  - The pure builders: repository reference, failure text, shell commands
    and token replacement.
  - Specification functions for each step and for the whole blueprint.
  - The class `Session`, whose methods mirror the source's functions. Each
    method appends to a `trace` of events and is proved to append exactly
    what its specification function says.
  - Effects of libraries (degit, replace-in-file, child processes, ora, the
    console) become `Event`s. The answers those libraries give back come in
    through a `Host` value.
  - The `runCommand` closure is replaced by a `Step` selector.
  - A thrown error is a `Rejected` outcome.
- `react_app_properties.dfy` (module `ReactAppProperties`): what the
  blueprint promises, proved about those specification functions.
  - The spinner protocol.
  - Each step's behaviour and its skip flags.
  - Stop-at-first-failure.
  - The single final line.
  - The exact list of shell commands.
  - Token replacement.
  - The scenarios of the repository's unit tests.
- `node_version.dfy` (module `NodeVersion`): `nodeMajor`,
  `checkNodeVersion` and the command line's copy of the gate, as pure
  functions with the lemmas about them. `nodeMajor` is an `Option<nat>`
  (`None` for NaN); the two gates return a `Decision` instead of printing and
  exiting.
- `wrappers.dfy` (module `Wrappers`): `Option`, standing for JavaScript's
  `undefined` and `NaN`.

The two final console lines keep the characters the source file holds:
U+F8FF U+00FC U+00E7 U+00AA for success, and U+F8FF U+00FC U+00F4 U+00C5
for failure. These are evidently an emoji decoded in the wrong character
set; the model follows the code.

## Model

| member | source | states |
|---|---|---|
| ReactApp.EffectiveTag | blueprints/react-app.js:31 | The tag is the given `gitTag` when it is present and non-empty, and `HEAD` when it is absent or empty; it is never empty |
| ReactApp.RepoRef | blueprints/react-app.js:31 | The degit reference is the blueprint source, then `#`, then the effective tag |
| ReactApp.TargetDir | blueprints/react-app.js:30 | The target directory is the working directory, a `/`, then the app name, each read back by slicing |
| ReactApp.FailureText | blueprints/react-app.js:24 | The fail text starts with the failure message and a space. It continues with `(message)` exactly when the error's message is non-empty; otherwise nothing follows the space |
| ReactApp.InstallCommand | blueprints/react-app.js:96-97 | An install command is `cd `, the directory, then ` && yarn install`; `CommandsRoundTrip` reads the directory back |
| ReactApp.GitInitCommand | blueprints/react-app.js:116 | A git command is `cd `, the directory, then ` && git init`; `CommandsRoundTrip` reads the directory back |
| ReactApp.ReplaceAll | blueprints/react-app.js:66-74 | Text shorter than the token is unchanged; `ReplaceAllFirstMatch` and `ReplaceAllWithoutToken` together fix the result of the global replacement for every text |
| ReactAppProperties.ReplaceAllFirstMatch | blueprints/react-app.js:66-74 | The leftmost occurrence of the token becomes the app name in place: the text before it is kept unchanged and the rewrite continues after it |
| ReactApp.RewriteText | blueprints/react-app.js:66-74 | A file holding just the token becomes the app name; `RewriteTextIdempotent` and `RewriteTwiceWithTokenLetters` say when a second rewrite changes nothing |
| ReactApp.Pipeline | blueprints/react-app.js:127-131 | Awaiting runs in order resolves exactly when every run resolves; `PipelineStopsAtFirstFailure` gives its events |
| ReactApp.Report | blueprints/react-app.js:132-137 | The final lines begin with the success line on resolve and the failure line on reject, and hold a second line, the error, exactly on a verbose failure |
| ReactApp.PipelineOfFour | blueprints/react-app.js:127-131 | Awaiting four steps in order does the first step and stops there if it failed. Otherwise it goes on to the second, and so on, settling as the last step it did |
| ReactApp.Session.Perform | blueprints/react-app.js:33-117 | The action of a step appends exactly the events of its specification and returns its outcome. The clone throws before any clone when the directory exists, and the app install runs only after the root install succeeds |
| ReactApp.Session.RunCommand | blueprints/react-app.js:15-27 | The trace gets the spinner start, the action's events, then succeed or fail with the failure text; the action's outcome is returned unchanged (rethrown) |
| ReactApp.Session.CloneRepo | blueprints/react-app.js:29-59 | The clone step appends exactly the events of its specification run and returns its outcome |
| ReactApp.Session.ReplaceTokens | blueprints/react-app.js:61-82 | The replace step appends exactly the events of its specification run and returns its outcome |
| ReactApp.Session.InstallDependencies | blueprints/react-app.js:84-105 | With `skipYarn` nothing is appended and the step resolves; otherwise the install step's events are appended |
| ReactApp.Session.InitGitRepo | blueprints/react-app.js:107-124 | With `skipGit` nothing is appended and the step resolves; otherwise the git step's events are appended |
| ReactApp.Session.AwaitSteps | blueprints/react-app.js:127-131 | The four steps run in order up to the first that fails; the trace and outcome are those of the pipeline of their runs |
| ReactApp.Session.RunBlueprint | blueprints/react-app.js:126-139 | The trace gets the pipeline's events, then the success line, or the failure line followed by the error when verbose. The method never fails |
| ReactAppProperties.FailureTextRoundTrip | blueprints/react-app.js:24 | The error message can be read back from the fail text, so no part of it is lost |
| ReactAppProperties.FailureTextInjective | blueprints/react-app.js:24 | Errors whose fail texts agree have the same message |
| ReactAppProperties.CommandsRoundTrip | blueprints/react-app.js:96-116 | Each shell command names the directory it was built for, and a yarn install is never a git init |
| ReactAppProperties.ReplaceAllWithoutToken | blueprints/react-app.js:66-74 | Text without the token is left unchanged |
| ReactAppProperties.ReplaceAllBySelf | blueprints/react-app.js:66-74 | Replacing the token by itself changes nothing |
| ReactAppProperties.ReplaceAllRemovesToken | blueprints/react-app.js:66-74 | A replacement that holds neither the token's first nor its last character, and some character outside the token, leaves no occurrence of the token anywhere |
| ReactAppProperties.RewriteTextIdempotent | blueprints/react-app.js:11 | Rewriting `{{APP_NAME}}` with an app name that holds no brace and some character outside the token removes every token, and a second rewrite changes nothing |
| ReactAppProperties.RewriteTwiceWithTokenLetters | blueprints/react-app.js:66-74 | With the app name `APP`, one rewrite turns `{{{{APP_NAME}}_NAME}}` into the token itself, so a second rewrite changes the text again |
| ReactAppProperties.PipelineStopsAtFirstFailure | blueprints/react-app.js:127-133 | Awaiting runs in order does the runs up to and including the first rejection and settles with it; with no rejection it does all of them and resolves |
| ReactAppProperties.SelectPipelineOfFour | blueprints/react-app.js:127-131 | The events of any one kind in the four-step pipeline are those of the steps reached, in order |
| ReactAppProperties.EchoedOnlyWhenVerbose | blueprints/react-app.js:45-49 | Degit's info messages are echoed, all and in order, exactly when verbose |
| ReactAppProperties.SpinnerAround | blueprints/react-app.js:19-26 | Around any action the spinner starts first and settles last, exactly once: succeed on resolve, fail with the failure text on reject |
| ReactAppProperties.CommandProtocol | blueprints/react-app.js:15-27 | `runCommand` is start, then the action, then exactly one succeed or fail; the outcome is the action's, so an error is rethrown unchanged |
| ReactAppProperties.CloneAction | blueprints/react-app.js:34-51 | When the target directory is free, the action clones `source#tag` into it once, echoes info only when verbose, runs no command and settles as the clone |
| ReactAppProperties.CloneStepBehaviour | blueprints/react-app.js:29-59 | An existing directory gives exactly start then fail "(target directory already exists)", with no clone. Otherwise there is one clone into the target, info only when verbose, and no shell command |
| ReactAppProperties.ReplaceStepBehaviour | blueprints/react-app.js:61-82 | One replace over `<dir>/**/*` with the ignore list node_modules, .yarn, .git, with dot files, from the token to the app name; no shell command |
| ReactAppProperties.InstallAction | blueprints/react-app.js:93-98 | Root `yarn install`, then the app workspace's only if the first succeeded, each with a 10 MB buffer; it settles as the last one run |
| ReactAppProperties.InstallStepBehaviour | blueprints/react-app.js:84-105 | `skipYarn` gives no event at all. Otherwise it runs the two installs as above, inside one start and one succeed or fail |
| ReactAppProperties.GitStepBehaviour | blueprints/react-app.js:107-124 | `skipGit` gives no event at all; otherwise one `git init` in the target directory, without buffer option, and the step settles as it does |
| ReactAppProperties.ReportSelects | blueprints/react-app.js:132-137 | The report holds one log line, success or failure, and the error only on a verbose failure |
| ReactAppProperties.ReportAfter | blueprints/react-app.js:132-137 | After the steps, exactly one final line is logged, and the error is dumped only on a verbose failure |
| ReactAppProperties.BlueprintReportsOnce | blueprints/react-app.js:126-139 | The blueprint succeeds exactly when all four steps do and otherwise fails with the first failure. It logs exactly one final line saying which, and dumps the error only when verbose |
| ReactAppProperties.StepCommands | blueprints/react-app.js:29-124 | The shell commands each step runs and how each step settles, in terms of the host's answers |
| ReactAppProperties.CommandsOfFour | blueprints/react-app.js:127-137 | The shell commands of a four-step pipeline whose clone and replace steps run none: none if the clone or replace failed, the installs if an install failed, the installs then `git init` otherwise |
| ReactAppProperties.BlueprintCommands | blueprints/react-app.js:126-139 | The blueprint runs exactly the shell commands `ExpectedCommands` lists, in order. That list is worked out from the host's answers without following the steps |
| ReactAppProperties.TestCommands | tests/blueprints/react-app.test.js:57-61 | For `/test/cwd` and `test-app` the commands are `cd /test/cwd/test-app && yarn install`, `cd /test/cwd/test-app/app && yarn install` and `cd /test/cwd/test-app && git init` |
| ReactAppProperties.DefaultOptionsScenario | tests/blueprints/react-app.test.js:51-62 | With default options and every call succeeding, both installs run with a 10 MB buffer and then `git init`, and the success line is logged |
| ReactAppProperties.SkipYarnScenario | tests/blueprints/react-app.test.js:64-69 | With `skipYarn` no install runs; only `git init` does |
| ReactAppProperties.SkipGitScenario | tests/blueprints/react-app.test.js:71-81 | With `skipGit` both installs run and `git init` does not |
| ReactAppProperties.TestHostSucceeds | blueprints/react-app.js:126-132 | When every call succeeds, the only final line is the success line, whatever the options |
| NodeVersion.NatToString | utils/node.js:10 | The numeral a template literal prints is non-empty, all digits, without a leading zero |
| NodeVersion.LeadingDigits | utils/node.js:8 | The leading digits are a prefix of the text, all digits, and followed by a non-digit or the end |
| NodeVersion.ParseInt | utils/node.js:8 | `parseInt` gives NaN exactly when the text does not start with a digit |
| NodeVersion.ToNumber | utils/node.js:2 | `Number` gives a value exactly for all-digit text, and 0 for the empty string |
| NodeVersion.BeforeFirstDot | utils/node.js:2 | `split('.')[0]` is a prefix without a dot, followed by a dot or the end |
| NodeVersion.RemoveFirst | utils/node.js:7 | `replace('v', '')` removes the first `v` and keeps everything before and after it; without a `v` the text is unchanged |
| NodeVersion.MinimumMajor | utils/node.js:2 | `nodeMajor` is a number exactly when the volta text before its first dot is all digits, and 0 when that text is empty |
| NodeVersion.AttemptedVersion | utils/node.js:7 | The attempted version holds no dot, and for `vN.rest` it is the text before the first dot without its `v` |
| NodeVersion.Below | utils/node.js:8 | The comparison holds only when the attempted version starts with a digit and the minimum is a positive number |
| NodeVersion.UpgradeLine | utils/node.js:10 | The upgrade request starts with "Gavin formally requests you upgrade to Node " and ends with `)`; `UpgradeLineRoundTrip` reads both versions back |
| NodeVersion.CheckNodeVersion | utils/node.js:6-13 | An abort prints two lines, the first "Command failed", with status 1, and happens only when both versions are numbers |
| NodeVersion.CliCheckNodeVersion | bin/index.js:14-20 | An abort prints "Command failed" and "Gavin formally requests you upgrade to Node 18+" with status 1 |
| NodeVersion.DigitsValueOfNumeral | utils/node.js:10 | A printed numeral denotes the number it was printed from |
| NodeVersion.NumeralRoundTrip | utils/node.js:2-8 | `parseInt` and `Number` both read back the value of a printed numeral |
| NodeVersion.WellFormedVersions | utils/node.js:2-7 | `vN.rest` is attempted as the text `N`, which parses to N, and a volta string `M.rest` gives the minimum M |
| NodeVersion.GateDecision | utils/node.js:8-12 | For well-formed versions the gate aborts exactly when the running major is below the minimum, with the two lines and status 1; otherwise it passes |
| NodeVersion.NaNPasses | utils/node.js:8 | An attempted version without a leading digit, or a non-numeric volta major, makes the comparison false and the gate passes |
| NodeVersion.UpgradeLineRoundTrip | utils/node.js:10 | The minimum and the attempted version can both be read back from the upgrade request |
| NodeVersion.CliGateAgrees | bin/index.js:12-20 | With a volta minimum of 18, the command line's gate aborts on the same interpreters as the module's, with the same status and first line. Its request is the start of the module's |
| NodeVersion.TestVersions | tests/utils/node.test.js:4-27 | The test's volta version `18.16.0` gives the minimum 18 under both `Number` and `parseInt`. The interpreter versions `v16.20.2` (turned away) and `v20.11.1` (passes) are illustrative, since the test does not exercise the failure case |

## Left out

- ReactApp.ReplaceAll: the app name is inserted literally. JavaScript interprets the replacement patterns `$$`, `$&`, `` $` `` and `$'` in it; the model inserts every `$` pattern literally.
- replace-in-file's glob traversal, ignore matching and file writes. The ignore patterns are bare names matched against the paths `<dir>/**/*` yields, so what they exclude depends on the glob library; the model records the list only. The replace is one event carrying its arguments (pattern, ignore list, token, name, dot) and an outcome given by the host. `RewriteText` states what happens to the text of each visited file.
- degit's download, and its `cache`, `force` and `verbose` options. The clone is one event carrying the reference and the target directory, with an outcome given by the host. The info messages are given by the host and echoed after the clone event rather than interleaved with the download.
- `child_process.exec`: its stdout, stderr and shell semantics, including the unquoted app name. Each command's outcome is given by the host, by command string.
- chalk colouring and ora rendering. Spinner calls are events that carry their uncoloured text.
- The dynamic `import('ora')`, and async scheduling. The steps are sequential calls, and a failing import is not modelled.
- `path.join` normalisation. The target directory is `cwd + "/" + appName`.
- `console.error(err)` prints the whole error object; the model records an `ErrorDump` of the error.
- Thrown values that are not `Error`s. An error's absent message is the empty string.
- `package.json`. The blueprint source and the volta version string are parameters.
- ReactAppProperties.RewriteTextIdempotent: proved only for app names with no brace and some character outside the token. A name made only of the token's letters, such as `APP`, can rebuild the token, and then a second rewrite changes the text (`RewriteTwiceWithTokenLetters`). Names that hold a brace are not valid package names and are not covered.
- NodeVersion.ParseInt: leading whitespace, signs, radix prefixes and values beyond the safe-integer range are not modelled. Only "leading decimal digits, or NaN" is modelled.
- NodeVersion.ToNumber: whitespace trimming, signs, decimal points, exponents and hexadecimal literals are not modelled. Only "all decimal digits (the empty string is 0), or NaN" is modelled.
- `bin/index.js` apart from its version gate: yargs parsing, help and version output, and the required-argument errors belong to the yargs library.
