/**
 * What the react-app blueprint promises, proved about the specification
 * functions of module ReactApp (the methods of `ReactApp.Session` are
 * verified against those functions).
 */
module ReactAppProperties {
  import opened Wrappers
  import opened ReactApp

  // ---------------------------------------------------------------------
  // Looking at one kind of event in a trace
  // ---------------------------------------------------------------------

  datatype Kind = SpinnerKind | CloneKind | InfoKind | ReplaceKind | ExecKind | LogKind | DumpKind

  function KindOf(e: Event): Kind
  {
    match e
    case SpinnerStart(_) => SpinnerKind
    case SpinnerSucceed(_) => SpinnerKind
    case SpinnerFail(_) => SpinnerKind
    case Clone(_, _) => CloneKind
    case Info(_) => InfoKind
    case Replace(_, _, _, _, _) => ReplaceKind
    case Exec(_, _) => ExecKind
    case Log(_) => LogKind
    case ErrorDump(_) => DumpKind
  }

  /** The events of kind `k` in `t`, in trace order. */
  function Select(t: seq<Event>, k: Kind): (r: seq<Event>)
    ensures |r| <= |t|
    ensures forall i :: 0 <= i < |r| ==> KindOf(r[i]) == k
  {
    if t == [] then []
    else (if KindOf(t[0]) == k then [t[0]] else []) + Select(t[1..], k)
  }

  lemma {:induction false} SelectAppend(a: seq<Event>, b: seq<Event>, k: Kind)
    ensures Select(a + b, k) == Select(a, k) + Select(b, k)
  {
    if a == [] {
      assert a + b == b;
    } else {
      assert (a + b)[1..] == a[1..] + b;
      SelectAppend(a[1..], b, k);
    }
  }

  /** Every event of `t` is of one of the kinds `ks`. */
  predicate Within(t: seq<Event>, ks: set<Kind>)
  {
    forall i :: 0 <= i < |t| ==> KindOf(t[i]) in ks
  }

  /** A trace with no event of kind `k` selects nothing. */
  lemma {:induction false} SelectNone(t: seq<Event>, ks: set<Kind>, k: Kind)
    requires Within(t, ks) && k !in ks
    ensures Select(t, k) == []
  {
    if t != [] {
      SelectNone(t[1..], ks, k);
    }
  }

  /** A trace made only of events of kind `k` selects all of itself. */
  lemma {:induction false} SelectAll(t: seq<Event>, k: Kind)
    requires Within(t, {k})
    ensures Select(t, k) == t
  {
    if t != [] {
      SelectAll(t[1..], k);
      assert [t[0]] + t[1..] == t;
    }
  }

  // ---------------------------------------------------------------------
  // The failure text
  // ---------------------------------------------------------------------

  /** Reads the error message back out of a failure text. */
  function MessageInFailureText(t: string, failureMsg: string): string
    requires |t| > |failureMsg|
  {
    var rest := t[|failureMsg| + 1..];
    if |rest| >= 2 then rest[1..|rest| - 1] else ""
  }

  /** The failure text keeps the error's whole message: reading it back gives
      the message, so different messages give different texts. */
  lemma FailureTextRoundTrip(failureMsg: string, err: Error)
    ensures MessageInFailureText(FailureText(failureMsg, err), failureMsg) == err.message
  {
    var t := FailureText(failureMsg, err);
    if err.message != "" {
      var rest := t[|failureMsg| + 1..];
      assert rest == "(" + err.message + ")";
      assert rest[1..|rest| - 1] == err.message;
    }
  }

  lemma FailureTextInjective(failureMsg: string, e1: Error, e2: Error)
    requires FailureText(failureMsg, e1) == FailureText(failureMsg, e2)
    ensures e1 == e2
  {
    FailureTextRoundTrip(failureMsg, e1);
    FailureTextRoundTrip(failureMsg, e2);
  }

  // ---------------------------------------------------------------------
  // The shell commands
  // ---------------------------------------------------------------------

  /** The directory a `cd <dir> && ...` command with the given suffix runs in. */
  function CommandDir(command: string, suffix: string): string
    requires |command| >= |CdPrefix| + |suffix|
  {
    command[|CdPrefix|..|command| - |suffix|]
  }

  /** Each command names the directory it was built for, and a yarn install is
      never a git init, whatever the directories. */
  lemma CommandsRoundTrip(dir: string, other: string)
    ensures CommandDir(InstallCommand(dir), YarnInstallSuffix) == dir
    ensures CommandDir(GitInitCommand(dir), GitInitSuffix) == dir
    ensures InstallCommand(dir) != GitInitCommand(other)
  {
    var y := InstallCommand(dir);
    var g := GitInitCommand(other);
    assert y[|CdPrefix|..|y| - |YarnInstallSuffix|] == dir;
    var gd := GitInitCommand(dir);
    assert gd[|CdPrefix|..|gd| - |GitInitSuffix|] == dir;
    assert y[|y| - 1] == 'l';
    assert g[|g| - 1] == 't';
  }

  // ---------------------------------------------------------------------
  // Token rewriting
  // ---------------------------------------------------------------------

  /** `from` occurs in `s` starting at index `i`. */
  predicate MatchAt(s: string, from: string, i: nat)
  {
    i + |from| <= |s| && s[i..i + |from|] == from
  }

  predicate Occurs(s: string, from: string)
  {
    exists i: nat | i <= |s| :: MatchAt(s, from, i)
  }

  /** Text without the token is left as it is. */
  lemma {:induction false} ReplaceAllWithoutToken(s: string, from: string, to: string)
    requires from != []
    requires !Occurs(s, from)
    ensures ReplaceAll(s, from, to) == s
    decreases |s|
  {
    if |s| >= |from| {
      assert !MatchAt(s, from, 0);
      forall i: nat ensures !MatchAt(s[1..], from, i) {
        if MatchAt(s[1..], from, i) {
          assert s[1..][i..i + |from|] == s[i + 1..i + 1 + |from|];
          assert MatchAt(s, from, i + 1);
        }
      }
      ReplaceAllWithoutToken(s[1..], from, to);
      assert [s[0]] + s[1..] == s;
    }
  }

  /** The leftmost match is replaced in place: the text before it is kept,
      and the rewrite goes on after it. */
  lemma {:induction false} ReplaceAllFirstMatch(a: string, b: string, from: string, to: string)
    requires from != []
    requires forall i: nat :: i < |a| ==> !MatchAt(a + from + b, from, i)
    ensures ReplaceAll(a + from + b, from, to) == a + to + ReplaceAll(b, from, to)
    decreases |a|
  {
    var s := a + from + b;
    if a == [] {
      assert s == from + b;
      StepAt(b, from, to);
    } else {
      var rest := a[1..] + from + b;
      assert s[1..] == rest;
      assert !MatchAt(s, from, 0);
      assert ReplaceAll(s, from, to) == [a[0]] + ReplaceAll(rest, from, to);
      forall i: nat | i < |a| - 1 ensures !MatchAt(rest, from, i) {
        assert !MatchAt(s, from, i + 1);
        assert rest[i..i + |from|] == s[i + 1..i + 1 + |from|];
      }
      ReplaceAllFirstMatch(a[1..], b, from, to);
      assert [a[0]] + (a[1..] + to + ReplaceAll(b, from, to)) == a + to + ReplaceAll(b, from, to);
    }
  }

  /** Replacing the token by itself changes nothing. */
  lemma {:induction false} ReplaceAllBySelf(s: string, from: string)
    requires from != []
    ensures ReplaceAll(s, from, from) == s
    decreases |s|
  {
    if |s| >= |from| {
      if s[..|from|] == from {
        ReplaceAllBySelf(s[|from|..], from);
        assert from + s[|from|..] == s;
      } else {
        ReplaceAllBySelf(s[1..], from);
        assert [s[0]] + s[1..] == s;
      }
    }
  }

  /** A replacement no match can run into: it holds neither the first nor the
      last character of `from`, and not all of its characters are in `from`
      (so it is not empty). */
  predicate Insulated(to: string, from: string)
  {
    && from != []
    && from[0] !in to
    && from[|from| - 1] !in to
    && exists j :: 0 <= j < |to| && to[j] !in from
  }

  /** A match past the end of a prefix is a match in what follows it. */
  lemma MatchShift(p: string, tail: string, from: string, i: nat)
    requires i >= |p| && MatchAt(p + tail, from, i)
    ensures MatchAt(tail, from, i - |p|)
  {
    assert (p + tail)[i..i + |from|] == tail[i - |p|..i - |p| + |from|];
  }

  /** No match starts inside an insulated replacement. */
  lemma NoMatchInReplacement(to: string, tail: string, from: string, i: nat)
    requires Insulated(to, from) && i < |to|
    ensures !MatchAt(to + tail, from, i)
  {
    var s := to + tail;
    assert s[i] == to[i] && to[i] in to;
    if i + |from| <= |s| {
      assert s[i..i + |from|][0] == s[i];
    }
  }

  /** A match at the front of `p + ReplaceAll(t, ...)`, where `p` is text the
      rewrite has already passed over, would be a match at the front of `p + t`:
      it cannot end inside an insulated replacement nor cover one whole. */
  lemma {:induction false} NoMatchAcross(p: string, t: string, from: string, to: string)
    requires Insulated(to, from) && p != []
    requires !MatchAt(p + t, from, 0)
    ensures !MatchAt(p + ReplaceAll(t, from, to), from, 0)
    decreases |t|
  {
    var m := |from|;
    var r := ReplaceAll(t, from, to);
    if |p| >= m {
      assert (p + r)[..m] == p[..m] == (p + t)[..m];
    } else if |t| < m {
    } else if t[..m] == from {
      var tail := ReplaceAll(t[m..], from, to);
      assert r == to + tail;
      var w := p + (to + tail);
      if |p| + |to| >= m {
        assert m - 1 >= |p| && w[m - 1] == to[m - 1 - |p|];
      } else {
        var j :| 0 <= j < |to| && to[j] !in from;
        assert w[|p| + j] == to[j];
      }
    } else {
      var q := p + [t[0]];
      assert p + t == q + t[1..];
      NoMatchAcross(q, t[1..], from, to);
      assert p + r == q + ReplaceAll(t[1..], from, to);
    }
  }

  /** With an insulated replacement no token survives the rewrite. */
  lemma {:induction false} ReplaceAllRemovesToken(s: string, from: string, to: string)
    requires from != []
    requires Insulated(to, from)
    ensures !Occurs(ReplaceAll(s, from, to), from)
    decreases |s|
  {
    var r := ReplaceAll(s, from, to);
    var m := |from|;
    if |s| < m {
    } else if s[..m] == from {
      var tail := ReplaceAll(s[m..], from, to);
      assert r == to + tail;
      ReplaceAllRemovesToken(s[m..], from, to);
      forall i: nat | i <= |r| ensures !MatchAt(r, from, i) {
        if i < |to| {
          NoMatchInReplacement(to, tail, from, i);
        } else if MatchAt(r, from, i) {
          MatchShift(to, tail, from, i);
        }
      }
    } else {
      var tail := ReplaceAll(s[1..], from, to);
      assert r == [s[0]] + tail;
      ReplaceAllRemovesToken(s[1..], from, to);
      forall i: nat | i <= |r| ensures !MatchAt(r, from, i) {
        if i == 0 {
          assert [s[0]] + s[1..] == s;
          NoMatchAcross([s[0]], s[1..], from, to);
        } else if MatchAt(r, from, i) {
          MatchShift([s[0]], tail, from, i);
        }
      }
    }
  }

  /** The rewrite, applied a second time with the same name, changes nothing,
      provided the name holds no brace and some character that is not in the
      token. */
  lemma RewriteTextIdempotent(text: string, appName: string)
    requires '{' !in appName && '}' !in appName
    requires exists j :: 0 <= j < |appName| && appName[j] !in AppNameToken
    ensures !Occurs(RewriteText(text, appName), AppNameToken)
    ensures RewriteText(RewriteText(text, appName), appName) == RewriteText(text, appName)
  {
    assert AppNameToken[0] == '{' && AppNameToken[|AppNameToken| - 1] == '}';
    ReplaceAllRemovesToken(text, AppNameToken, appName);
    ReplaceAllWithoutToken(RewriteText(text, appName), AppNameToken, appName);
  }

  /** Where the text does not start with `from`, the rewrite keeps its
      first character and goes on with the rest. */
  lemma StepOver(s: string, from: string, to: string, k: nat)
    requires from != [] && |s| >= |from| && k < |from| && s[k] != from[k]
    ensures ReplaceAll(s, from, to) == [s[0]] + ReplaceAll(s[1..], from, to)
  {
    assert s[..|from|][k] == s[k];
  }

  /** Where the text starts with `from`, the rewrite puts `to` in its place. */
  lemma StepAt(t: string, from: string, to: string)
    requires from != []
    ensures ReplaceAll(from + t, from, to) == to + ReplaceAll(t, from, to)
  {
    var s := from + t;
    assert s[..|from|] == from && s[|from|..] == t;
  }

  /** The token with two more braces in front and `_NAME}}` behind:
      `{{{{APP_NAME}}_NAME}}`. */
  const NameTail: string := "_NAME}}"
  const NestedToken: string := "{{" + AppNameToken + NameTail

  /** A name made only of the token's letters can rebuild the token: the
      first rewrite of `NestedToken` with the name `APP` leaves a token
      behind, which a second rewrite replaces. */
  lemma RewriteTwiceWithTokenLetters()
    ensures RewriteText(NestedToken, "APP") == AppNameToken
    ensures RewriteText(AppNameToken, "APP") == "APP"
    ensures RewriteText(RewriteText(NestedToken, "APP"), "APP") != RewriteText(NestedToken, "APP")
  {
    NestedTokenRewrite();
    StepAt([], AppNameToken, "APP");
    assert AppNameToken + [] == AppNameToken && "APP" + [] == "APP";
    assert |"APP"| != |AppNameToken|;
  }

  /** Two opening braces in front of a brace-led token are copied, the
      token is replaced, and a short tail is kept. */
  lemma {:induction false} BracedTokenRewrite(tok: string, tail: string, name: string)
    requires |tok| >= 3 && tok[0] == '{' && tok[1] == '{' && tok[2] != '{'
    requires |tail| < |tok|
    ensures ReplaceAll("{{" + tok + tail, tok, name) == "{{" + name + tail
  {
    var s0 := "{{" + tok + tail;
    var s1 := "{" + tok + tail;
    assert s0[1..] == s1 && s1[1..] == tok + tail;
    assert s0[2] == '{' && s1[2] == '{';
    StepOver(s0, tok, name, 2);
    StepOver(s1, tok, name, 2);
    StepAt(tail, tok, name);
    assert ReplaceAll(tail, tok, name) == tail;
  }

  lemma NestedTokenRewrite()
    ensures RewriteText(NestedToken, "APP") == AppNameToken
  {
    assert AppNameToken[0] == '{' && AppNameToken[1] == '{' && AppNameToken[2] == 'A';
    BracedTokenRewrite(AppNameToken, NameTail, "APP");
    assert "{{" + "APP" + NameTail == AppNameToken;
  }

  // ---------------------------------------------------------------------
  // Awaiting steps in order
  // ---------------------------------------------------------------------

  /** The index of the first run that rejects, or the number of runs. */
  function FirstFailure(runs: seq<Run>): (k: nat)
    ensures k <= |runs|
    ensures forall i :: 0 <= i < k ==> runs[i].outcome.Resolved?
    ensures k < |runs| ==> runs[k].outcome.Rejected?
  {
    if runs == [] then 0
    else if runs[0].outcome.Rejected? then 0
    else 1 + FirstFailure(runs[1..])
  }

  /** The events of the runs, one after another. */
  function AllEvents(runs: seq<Run>): seq<Event>
  {
    if runs == [] then [] else runs[0].events + AllEvents(runs[1..])
  }

  /** Awaiting runs in order does the runs up to and including the first that
      rejects, and settles with that rejection; if none rejects it does them
      all and resolves. */
  lemma {:induction false} PipelineStopsAtFirstFailure(runs: seq<Run>)
    ensures var k := FirstFailure(runs);
            Pipeline(runs)
            == if k == |runs| then Run(AllEvents(runs), Resolved)
               else Run(AllEvents(runs[..k + 1]), runs[k].outcome)
  {
    if runs == [] {
    } else if runs[0].outcome.Rejected? {
      assert runs[..1] == [runs[0]];
      assert AllEvents([runs[0]]) == runs[0].events + AllEvents([]);
    } else {
      var rest := runs[1..];
      PipelineStopsAtFirstFailure(rest);
      var k := FirstFailure(rest);
      if k < |rest| {
        assert runs[..k + 2][1..] == rest[..k + 1];
      }
    }
  }

  /** The events of one kind in a four-step pipeline, written out. */
  lemma SelectPipelineOfFour(r1: Run, r2: Run, r3: Run, r4: Run, k: Kind)
    ensures Select(Pipeline([r1, r2, r3, r4]).events, k)
            == if r1.outcome.Rejected? then Select(r1.events, k)
               else if r2.outcome.Rejected? then Select(r1.events, k) + Select(r2.events, k)
               else if r3.outcome.Rejected? then Select(r1.events, k) + Select(r2.events, k) + Select(r3.events, k)
               else Select(r1.events, k) + Select(r2.events, k) + Select(r3.events, k) + Select(r4.events, k)
  {
    PipelineOfFour(r1, r2, r3, r4);
    SelectAppend(r1.events, r2.events, k);
    SelectAppend(r1.events + r2.events, r3.events, k);
    SelectAppend(r1.events + r2.events + r3.events, r4.events, k);
  }

  /** A pipeline of runs whose events are all of the kinds `ks` has only
      events of those kinds. */
  lemma {:induction false} PipelineWithin(runs: seq<Run>, ks: set<Kind>)
    requires forall j :: 0 <= j < |runs| ==> Within(runs[j].events, ks)
    ensures Within(Pipeline(runs).events, ks)
  {
    if runs != [] && runs[0].outcome.Resolved? {
      PipelineWithin(runs[1..], ks);
    }
  }

  // ---------------------------------------------------------------------
  // One step
  // ---------------------------------------------------------------------

  /** The kinds of event an action performs: never a spinner update, never a
      final log line. */
  const ActionKinds: set<Kind> := {CloneKind, InfoKind, ReplaceKind, ExecKind}

  /** The kinds of event a step performs: its action's and the spinner's. */
  const StepKinds: set<Kind> := {SpinnerKind, CloneKind, InfoKind, ReplaceKind, ExecKind}

  /** The info messages degit reports, as console events. */
  function InfoEvents(infos: seq<string>): (r: seq<Event>)
    ensures |r| == |infos|
    ensures forall i :: 0 <= i < |infos| ==> r[i] == Info(infos[i])
  {
    seq(|infos|, i requires 0 <= i < |infos| => Info(infos[i]))
  }

  /** Degit's info messages are echoed, all and in order, exactly when
      verbose. */
  lemma {:induction false} EchoedOnlyWhenVerbose(infos: seq<string>, verbose: bool)
    ensures Echoed(infos, verbose) == if verbose then InfoEvents(infos) else []
  {
    if infos != [] {
      var front := infos[..|infos| - 1];
      EchoedOnlyWhenVerbose(front, verbose);
      if verbose {
        assert InfoEvents(infos) == InfoEvents(front) + [Info(infos[|infos| - 1])];
      }
    }
  }

  lemma ActionWithin(step: Step, appName: string, options: Options, host: Host)
    ensures Within(ActionRun(step, appName, options, host).events, ActionKinds)
  {
    if step == CloneStep && !host.env.dirExists {
      EchoedOnlyWhenVerbose(host.env.cloneInfo, options.verbose);
    }
  }

  /** The spinner around an action that itself never touches the spinner:
      it starts first and settles last, exactly once, succeeding when the
      action resolves and failing with the failure text when it rejects. */
  lemma SpinnerAround(msgs: Messages, action: Run)
    requires Within(action.events, ActionKinds)
    ensures var t := [SpinnerStart(msgs.loading)] + action.events + [Terminal(msgs, action.outcome)];
            && |t| == |action.events| + 2
            && t[0] == SpinnerStart(msgs.loading)
            && t[1..|t| - 1] == action.events
            && (action.outcome.Resolved? ==> t[|t| - 1] == SpinnerSucceed(msgs.success))
            && (action.outcome.Rejected? ==>
                  t[|t| - 1] == SpinnerFail(FailureText(msgs.failure, action.outcome.error)))
            && Select(t, SpinnerKind) == [SpinnerStart(msgs.loading), Terminal(msgs, action.outcome)]
  {
    var start := [SpinnerStart(msgs.loading)];
    var t := start + action.events + [Terminal(msgs, action.outcome)];
    SelectNone(action.events, ActionKinds, SpinnerKind);
    SelectAppend(start, action.events, SpinnerKind);
    SelectAppend(start + action.events, [Terminal(msgs, action.outcome)], SpinnerKind);
    assert t[1..|t| - 1] == action.events;
  }

  /** `runCommand`: the spinner starts first and settles last, exactly once,
      succeeding when the action resolves and failing with the failure text
      when it rejects; in between is the action, and its outcome is passed on
      unchanged, so a rejection is rethrown with the same error. */
  lemma CommandProtocol(step: Step, msgs: Messages, appName: string, options: Options, host: Host)
    ensures var action := ActionRun(step, appName, options, host);
            var run := CommandRun(step, msgs, appName, options, host);
            && run.outcome == action.outcome
            && |run.events| == |action.events| + 2
            && run.events[0] == SpinnerStart(msgs.loading)
            && run.events[1..|run.events| - 1] == action.events
            && (action.outcome.Resolved? ==> run.events[|run.events| - 1] == SpinnerSucceed(msgs.success))
            && (action.outcome.Rejected? ==>
                  run.events[|run.events| - 1] == SpinnerFail(FailureText(msgs.failure, action.outcome.error)))
            && Select(run.events, SpinnerKind) == [SpinnerStart(msgs.loading), Terminal(msgs, action.outcome)]
  {
    ActionWithin(step, appName, options, host);
    SpinnerAround(msgs, ActionRun(step, appName, options, host));
  }

  /** A step's events are the spinner's and the action's, never a final line. */
  lemma StepWithin(step: Step, appName: string, options: Options, host: Host)
    ensures Within(StepRun(step, appName, options, host).events, StepKinds)
  {
    if !Skipped(step, options) {
      var action := ActionRun(step, appName, options, host);
      ActionWithin(step, appName, options, host);
      var run := StepRun(step, appName, options, host);
      assert run.events == [SpinnerStart(MessagesOf(step).loading)] + action.events
                           + [Terminal(MessagesOf(step), action.outcome)];
    }
  }

  lemma SelectSingle(e: Event, k: Kind)
    ensures Select([e], k) == if KindOf(e) == k then [e] else []
  {
    assert [e][1..] == [];
  }

  /** Apart from the spinner, a command's events are its action's. */
  lemma SelectBracketed(msgs: Messages, action: Run, k: Kind)
    requires k != SpinnerKind
    ensures Select([SpinnerStart(msgs.loading)] + action.events + [Terminal(msgs, action.outcome)], k)
            == Select(action.events, k)
  {
    var start := [SpinnerStart(msgs.loading)];
    SelectAppend(start, action.events, k);
    SelectAppend(start + action.events, [Terminal(msgs, action.outcome)], k);
  }

  lemma InfoEventsWithin(infos: seq<string>)
    ensures Within(InfoEvents(infos), {InfoKind})
    ensures Within([], {InfoKind})
  {
  }

  /** A clone followed by info messages, looked at kind by kind. */
  lemma CloneThenInfos(clone: Event, echoed: seq<Event>)
    requires clone.Clone? && Within(echoed, {InfoKind})
    ensures Select([clone] + echoed, CloneKind) == [clone]
    ensures Select([clone] + echoed, InfoKind) == echoed
    ensures Select([clone] + echoed, ExecKind) == []
  {
    SelectAppend([clone], echoed, CloneKind);
    SelectAppend([clone], echoed, InfoKind);
    SelectAppend([clone], echoed, ExecKind);
    SelectSingle(clone, CloneKind);
    SelectSingle(clone, InfoKind);
    SelectSingle(clone, ExecKind);
    SelectNone(echoed, {InfoKind}, CloneKind);
    SelectAll(echoed, InfoKind);
    SelectNone(echoed, {InfoKind}, ExecKind);
  }

  /** The clone action, when the target directory is free: one clone of
      `source#tag` into the target directory, then the echoed info messages. */
  lemma CloneAction(appName: string, options: Options, host: Host)
    requires !host.env.dirExists
    ensures var action := ActionRun(CloneStep, appName, options, host);
            && action.outcome == host.env.clone
            && Select(action.events, CloneKind)
               == [Clone(RepoRef(host.source, options.gitTag), TargetDir(host.cwd, appName))]
            && Select(action.events, InfoKind) == (if options.verbose then InfoEvents(host.env.cloneInfo) else [])
            && Select(action.events, ExecKind) == []
  {
    var action := ActionRun(CloneStep, appName, options, host);
    var clone := Clone(RepoRef(host.source, options.gitTag), TargetDir(host.cwd, appName));
    var echoed := Echoed(host.env.cloneInfo, options.verbose);
    assert action.events == [clone] + echoed;
    EchoedOnlyWhenVerbose(host.env.cloneInfo, options.verbose);
    InfoEventsWithin(host.env.cloneInfo);
    CloneThenInfos(clone, echoed);
  }

  /** `cloneRepo`: an existing target directory fails the step before any
      clone; otherwise degit clones `source#tag` into the target directory,
      its info messages are echoed only when verbose, and the step settles as
      the clone does. */
  lemma CloneStepBehaviour(appName: string, options: Options, host: Host)
    ensures var run := StepRun(CloneStep, appName, options, host);
            host.env.dirExists ==>
              run == Run([SpinnerStart(CloneMessages.loading),
                          SpinnerFail(FailureText(CloneMessages.failure, Error(DirectoryExistsMessage)))],
                         Rejected(Error(DirectoryExistsMessage)))
    ensures var run := StepRun(CloneStep, appName, options, host);
            !host.env.dirExists ==>
              && run.outcome == host.env.clone
              && Select(run.events, CloneKind)
                 == [Clone(RepoRef(host.source, options.gitTag), TargetDir(host.cwd, appName))]
              && Select(run.events, InfoKind) == (if options.verbose then InfoEvents(host.env.cloneInfo) else [])
    ensures Select(StepRun(CloneStep, appName, options, host).events, ExecKind) == []
  {
    var action := ActionRun(CloneStep, appName, options, host);
    var run := StepRun(CloneStep, appName, options, host);
    assert run == CommandRun(CloneStep, CloneMessages, appName, options, host);
    SelectBracketed(CloneMessages, action, ExecKind);
    if !host.env.dirExists {
      CloneAction(appName, options, host);
      SelectBracketed(CloneMessages, action, CloneKind);
      SelectBracketed(CloneMessages, action, InfoKind);
    }
  }

  /** `replaceTokens`: one replace over every file under the target
      directory, skipping node_modules, .yarn and .git, matching dot files,
      turning the app-name token into the app name; no shell command. */
  lemma ReplaceStepBehaviour(appName: string, options: Options, host: Host)
    ensures var run := StepRun(ReplaceStep, appName, options, host);
            && run.outcome == host.env.replace
            && Select(run.events, ReplaceKind)
               == [Replace(TargetDir(host.cwd, appName) + FilesGlob, ["node_modules", ".yarn", ".git"],
                           AppNameToken, appName, true)]
            && Select(run.events, ExecKind) == []
  {
    var action := ActionRun(ReplaceStep, appName, options, host);
    SelectBracketed(ReplaceMessages, action, ReplaceKind);
    SelectBracketed(ReplaceMessages, action, ExecKind);
  }

  /** The install action, unfolded: the root install alone when it fails,
      both installs otherwise. */
  lemma InstallActionShape(appName: string, options: Options, host: Host)
    ensures var dir := TargetDir(host.cwd, appName);
            var root := InstallCommand(dir);
            var app := InstallCommand(dir + "/" + AppWorkspace);
            var exec := host.env.exec;
            ActionRun(InstallStep, appName, options, host)
            == if exec(root).Rejected? then Run([Exec(root, Some(MaxBuffer))], exec(root))
               else Run([Exec(root, Some(MaxBuffer)), Exec(app, Some(MaxBuffer))], exec(app))
  {
  }

  /** One or two commands select as themselves. */
  lemma SelectCommands(first: Event, second: Event)
    requires first.Exec? && second.Exec?
    ensures Select([first], ExecKind) == [first]
    ensures Select([first, second], ExecKind) == [first] + [second]
  {
    SelectSingle(first, ExecKind);
    SelectSingle(second, ExecKind);
    SelectAppend([first], [second], ExecKind);
    assert [first] + [second] == [first, second];
  }

  /** The install action: `yarn install` at the root, then in the app
      workspace only when the first succeeded, each with a ten-megabyte output
      buffer; it settles as the last install it ran. */
  lemma InstallAction(appName: string, options: Options, host: Host)
    ensures var action := ActionRun(InstallStep, appName, options, host);
            var dir := TargetDir(host.cwd, appName);
            var root := InstallCommand(dir);
            var app := InstallCommand(dir + "/" + AppWorkspace);
            var exec := host.env.exec;
            && action.outcome == (if exec(root).Rejected? then exec(root) else exec(app))
            && Select(action.events, ExecKind)
               == [Exec(root, Some(MaxBuffer))] + (if exec(root).Resolved? then [Exec(app, Some(MaxBuffer))] else [])
  {
    var dir := TargetDir(host.cwd, appName);
    InstallActionShape(appName, options, host);
    SelectCommands(Exec(InstallCommand(dir), Some(MaxBuffer)),
                   Exec(InstallCommand(dir + "/" + AppWorkspace), Some(MaxBuffer)));
  }

  /** `installDependencies`: nothing at all when yarn is skipped; otherwise
      the spinner around the install action. */
  lemma InstallStepBehaviour(appName: string, options: Options, host: Host)
    ensures options.skipYarn ==> StepRun(InstallStep, appName, options, host) == Run([], Resolved)
    ensures var run := StepRun(InstallStep, appName, options, host);
            var dir := TargetDir(host.cwd, appName);
            var root := InstallCommand(dir);
            var app := InstallCommand(dir + "/" + AppWorkspace);
            var exec := host.env.exec;
            !options.skipYarn ==>
              && run.outcome == (if exec(root).Rejected? then exec(root) else exec(app))
              && Select(run.events, ExecKind)
                 == [Exec(root, Some(MaxBuffer))] + (if exec(root).Resolved? then [Exec(app, Some(MaxBuffer))] else [])
              && Select(run.events, SpinnerKind)
                 == [SpinnerStart(InstallMessages.loading), Terminal(InstallMessages, run.outcome)]
  {
    if !options.skipYarn {
      var action := ActionRun(InstallStep, appName, options, host);
      var run := StepRun(InstallStep, appName, options, host);
      assert run == CommandRun(InstallStep, InstallMessages, appName, options, host);
      InstallAction(appName, options, host);
      SelectBracketed(InstallMessages, action, ExecKind);
      CommandProtocol(InstallStep, InstallMessages, appName, options, host);
    }
  }

  /** `initGitRepo`: nothing at all when git is skipped; otherwise one
      `git init` in the target directory, with no buffer option, and the step
      settles as it does. */
  lemma GitStepBehaviour(appName: string, options: Options, host: Host)
    ensures options.skipGit ==> StepRun(GitStep, appName, options, host) == Run([], Resolved)
    ensures var run := StepRun(GitStep, appName, options, host);
            var command := GitInitCommand(TargetDir(host.cwd, appName));
            !options.skipGit ==>
              && run.outcome == host.env.exec(command)
              && Select(run.events, ExecKind) == [Exec(command, None)]
  {
    if !options.skipGit {
      var action := ActionRun(GitStep, appName, options, host);
      SelectBracketed(GitMessages, action, ExecKind);
    }
  }

  // ---------------------------------------------------------------------
  // The whole blueprint
  // ---------------------------------------------------------------------

  /** The report itself: one line, success or failure, then the error when
      verbose and failed; nothing of any other kind. */
  lemma ReportSelects(outcome: Outcome, verbose: bool, k: Kind)
    ensures Select(Report(outcome, verbose), k)
            == if k == LogKind then [Log(if outcome.Resolved? then SuccessLine else FailureLine)]
               else if k == DumpKind && verbose && outcome.Rejected? then [ErrorDump(outcome.error)]
               else []
  {
    var line := Log(if outcome.Resolved? then SuccessLine else FailureLine);
    SelectSingle(line, k);
    if outcome.Rejected? && verbose {
      var dump := ErrorDump(outcome.error);
      assert Report(outcome, verbose) == [line] + [dump];
      SelectAppend([line], [dump], k);
      SelectSingle(dump, k);
    } else {
      assert Report(outcome, verbose) == [line];
    }
  }

  /** The report after a pipeline: one final line, success or failure, and the
      error dumped only on a verbose failure. */
  lemma ReportAfter(run: Run, verbose: bool)
    requires Within(run.events, StepKinds)
    ensures var t := run.events + Report(run.outcome, verbose);
            && Select(t, LogKind) == [Log(if run.outcome.Resolved? then SuccessLine else FailureLine)]
            && Select(t, DumpKind) == (if verbose && run.outcome.Rejected? then [ErrorDump(run.outcome.error)] else [])
  {
    var report := Report(run.outcome, verbose);
    SelectAppend(run.events, report, LogKind);
    SelectAppend(run.events, report, DumpKind);
    SelectNone(run.events, StepKinds, LogKind);
    SelectNone(run.events, StepKinds, DumpKind);
    ReportSelects(run.outcome, verbose, LogKind);
    ReportSelects(run.outcome, verbose, DumpKind);
  }

  /** `runBlueprint`: the steps are awaited in order and the first failure
      stops the rest; it succeeds exactly when every step did, fails with the
      first step's error otherwise, logs exactly one final line saying which,
      and dumps the error only when verbose. */
  lemma BlueprintReportsOnce(appName: string, options: Options, host: Host)
    ensures var runs := BlueprintRuns(appName, options, host);
            var run := Pipeline(runs);
            var t := BlueprintEvents(appName, options, host);
            && (run.outcome.Resolved? <==> forall j :: 0 <= j < |runs| ==> runs[j].outcome.Resolved?)
            && (run.outcome.Rejected? ==> run.outcome == runs[FirstFailure(runs)].outcome)
            && Select(t, LogKind) == [Log(if run.outcome.Resolved? then SuccessLine else FailureLine)]
            && Select(t, DumpKind)
               == (if options.verbose && run.outcome.Rejected? then [ErrorDump(run.outcome.error)] else [])
  {
    var runs := BlueprintRuns(appName, options, host);
    PipelineStopsAtFirstFailure(runs);
    StepWithin(CloneStep, appName, options, host);
    StepWithin(ReplaceStep, appName, options, host);
    StepWithin(InstallStep, appName, options, host);
    StepWithin(GitStep, appName, options, host);
    PipelineWithin(runs, StepKinds);
    ReportAfter(Pipeline(runs), options.verbose);
  }

  /** The shell commands of four awaited runs, of which the first two run
      none. */
  lemma CommandsOfFour(c: Run, n: Run, i: Run, g: Run, installs: seq<Event>, inits: seq<Event>)
    requires Select(c.events, ExecKind) == [] && Select(n.events, ExecKind) == []
    requires Select(i.events, ExecKind) == installs && Select(g.events, ExecKind) == inits
    ensures Select(Pipeline([c, n, i, g]).events, ExecKind)
            == if c.outcome.Rejected? || n.outcome.Rejected? then []
               else if i.outcome.Rejected? then installs
               else installs + inits
  {
    var events := Pipeline([c, n, i, g]).events;
    PipelineOfFour(c, n, i, g);
    if c.outcome.Rejected? {
      assert events == c.events;
    } else if n.outcome.Rejected? {
      assert events == c.events + n.events;
      SelectAppend(c.events, n.events, ExecKind);
    } else if i.outcome.Rejected? {
      assert events == c.events + n.events + i.events;
      SelectAppend(c.events, n.events, ExecKind);
      SelectAppend(c.events + n.events, i.events, ExecKind);
    } else {
      assert events == c.events + n.events + i.events + g.events;
      SelectAppend(c.events, n.events, ExecKind);
      SelectAppend(c.events + n.events, i.events, ExecKind);
      SelectAppend(c.events + n.events + i.events, g.events, ExecKind);
    }
  }

  /** The report adds no event of any kind but a log line or an error dump. */
  lemma SelectWithReport(run: Run, verbose: bool, k: Kind)
    requires k != LogKind && k != DumpKind
    ensures Select(run.events + Report(run.outcome, verbose), k) == Select(run.events, k)
  {
    SelectAppend(run.events, Report(run.outcome, verbose), k);
    ReportSelects(run.outcome, verbose, k);
  }

  /** The shell commands the blueprint should run, worked out from how the
      host answers rather than by following the steps: nothing unless the
      clone and the replace succeed; then the installs unless yarn is skipped
      (the app workspace only after the root succeeded); then `git init`
      unless git is skipped or an install failed. */
  function ExpectedCommands(appName: string, options: Options, host: Host): seq<Event>
  {
    var dir := TargetDir(host.cwd, appName);
    var root := InstallCommand(dir);
    var app := InstallCommand(dir + "/" + AppWorkspace);
    var fetched := !host.env.dirExists && host.env.clone.Resolved? && host.env.replace.Resolved?;
    var installed := options.skipYarn || (host.env.exec(root).Resolved? && host.env.exec(app).Resolved?);
    var installs := ExpectedInstalls(appName, options, host);
    if !fetched then [] else if !installed then installs else installs + ExpectedInits(appName, options, host)
  }

  /** The installs the install step should run, and the `git init` the git
      step should run. */
  function ExpectedInstalls(appName: string, options: Options, host: Host): seq<Event>
  {
    var dir := TargetDir(host.cwd, appName);
    var root := InstallCommand(dir);
    var app := InstallCommand(dir + "/" + AppWorkspace);
    if options.skipYarn then []
    else [Exec(root, Some(MaxBuffer))] + (if host.env.exec(root).Resolved? then [Exec(app, Some(MaxBuffer))] else [])
  }

  function ExpectedInits(appName: string, options: Options, host: Host): seq<Event>
  {
    if options.skipGit then [] else [Exec(GitInitCommand(TargetDir(host.cwd, appName)), None)]
  }

  /** What each step contributes to the shell commands, and how each settles. */
  lemma StepCommands(appName: string, options: Options, host: Host)
    ensures var c := StepRun(CloneStep, appName, options, host);
            Select(c.events, ExecKind) == []
            && (c.outcome.Resolved? <==> !host.env.dirExists && host.env.clone.Resolved?)
    ensures var n := StepRun(ReplaceStep, appName, options, host);
            Select(n.events, ExecKind) == [] && n.outcome == host.env.replace
    ensures var i := StepRun(InstallStep, appName, options, host);
            var root := InstallCommand(TargetDir(host.cwd, appName));
            var app := InstallCommand(TargetDir(host.cwd, appName) + "/" + AppWorkspace);
            Select(i.events, ExecKind) == ExpectedInstalls(appName, options, host)
            && (i.outcome.Resolved? <==>
                  options.skipYarn || (host.env.exec(root).Resolved? && host.env.exec(app).Resolved?))
    ensures Select(StepRun(GitStep, appName, options, host).events, ExecKind) == ExpectedInits(appName, options, host)
  {
    CloneStepBehaviour(appName, options, host);
    ReplaceStepBehaviour(appName, options, host);
    InstallStepBehaviour(appName, options, host);
    GitStepBehaviour(appName, options, host);
  }

  /** The blueprint runs exactly the expected shell commands, in order. */
  lemma BlueprintCommands(appName: string, options: Options, host: Host)
    ensures Select(BlueprintEvents(appName, options, host), ExecKind) == ExpectedCommands(appName, options, host)
  {
    var runs := BlueprintRuns(appName, options, host);
    StepCommands(appName, options, host);
    assert runs == [runs[0], runs[1], runs[2], runs[3]];
    CommandsOfFour(runs[0], runs[1], runs[2], runs[3],
                   ExpectedInstalls(appName, options, host), ExpectedInits(appName, options, host));
    SelectWithReport(Pipeline(runs), options.verbose, ExecKind);
  }

  // ---------------------------------------------------------------------
  // The unit-test scenarios
  // ---------------------------------------------------------------------

  /** The host of the blueprint's unit tests: the current directory is
      `/test/cwd`, the target directory does not exist, and degit, the replace
      and every shell command succeed. */
  ghost predicate TestHost(host: Host)
  {
    && host.cwd == "/test/cwd"
    && !host.env.dirExists
    && host.env.clone.Resolved?
    && host.env.replace.Resolved?
    && forall command :: host.env.exec(command).Resolved?
  }

  const TestRootInstall: string := "cd /test/cwd/test-app && yarn install"
  const TestAppInstall: string := "cd /test/cwd/test-app/app && yarn install"
  const TestGitInit: string := "cd /test/cwd/test-app && git init"

  const TestDir: string := "/test/cwd/test-app"
  const TestAppDir: string := "/test/cwd/test-app/app"
  const TestRootCd: string := "cd /test/cwd/test-app"
  const TestAppCd: string := "cd /test/cwd/test-app/app"

  lemma TestTargetDir()
    ensures TargetDir("/test/cwd", "test-app") == TestDir
  {
  }

  lemma TestAppWorkspace()
    ensures TestDir + "/" + AppWorkspace == TestAppDir
  {
    assert TestDir + "/" == "/test/cwd/test-app/";
  }

  lemma TestRootCdPrefix()
    ensures CdPrefix + TestDir == TestRootCd
  {
  }

  lemma TestAppCdPrefix()
    ensures CdPrefix + TestAppDir == TestAppCd
  {
  }

  lemma TestRootInstallText()
    ensures TestRootCd + YarnInstallSuffix == TestRootInstall
  {
  }

  lemma TestAppInstallText()
    ensures TestAppCd + YarnInstallSuffix == TestAppInstall
  {
  }

  lemma TestGitInitText()
    ensures TestRootCd + GitInitSuffix == TestGitInit
  {
  }

  lemma TestCommands()
    ensures InstallCommand(TargetDir("/test/cwd", "test-app")) == TestRootInstall
    ensures InstallCommand(TargetDir("/test/cwd", "test-app") + "/" + AppWorkspace) == TestAppInstall
    ensures GitInitCommand(TargetDir("/test/cwd", "test-app")) == TestGitInit
  {
    TestTargetDir();
    TestAppWorkspace();
    TestRootCdPrefix();
    TestAppCdPrefix();
    TestRootInstallText();
    TestAppInstallText();
    TestGitInitText();
  }

  /** With the default options both installs run, each with a ten-megabyte
      buffer, and then `git init`; the blueprint reports success. */
  lemma DefaultOptionsScenario(host: Host)
    requires TestHost(host)
    ensures Select(BlueprintEvents("test-app", DefaultOptions, host), ExecKind)
            == [Exec(TestRootInstall, Some(1024 * 1024 * 10)), Exec(TestAppInstall, Some(1024 * 1024 * 10)),
                Exec(TestGitInit, None)]
    ensures Select(BlueprintEvents("test-app", DefaultOptions, host), LogKind) == [Log(SuccessLine)]
  {
    BlueprintCommands("test-app", DefaultOptions, host);
    TestCommands();
    TestHostSucceeds(DefaultOptions, host);
  }

  /** With `skipYarn` no install runs, but `git init` still does. */
  lemma SkipYarnScenario(host: Host)
    requires TestHost(host)
    ensures Select(BlueprintEvents("test-app", DefaultOptions.(skipYarn := true), host), ExecKind)
            == [Exec(TestGitInit, None)]
  {
    BlueprintCommands("test-app", DefaultOptions.(skipYarn := true), host);
    TestCommands();
  }

  /** With `skipGit` both installs run and `git init` does not. */
  lemma SkipGitScenario(host: Host)
    requires TestHost(host)
    ensures Select(BlueprintEvents("test-app", DefaultOptions.(skipGit := true), host), ExecKind)
            == [Exec(TestRootInstall, Some(1024 * 1024 * 10)), Exec(TestAppInstall, Some(1024 * 1024 * 10))]
  {
    BlueprintCommands("test-app", DefaultOptions.(skipGit := true), host);
    TestCommands();
  }

  /** On the test host every step succeeds, so the blueprint logs the
      success line, whatever the options. */
  lemma TestHostSucceeds(options: Options, host: Host)
    requires TestHost(host)
    ensures Select(BlueprintEvents("test-app", options, host), LogKind) == [Log(SuccessLine)]
  {
    TestHostStepsResolve(options, host);
    BlueprintReportsOnce("test-app", options, host);
  }

  /** On the test host every step resolves. */
  lemma TestHostStepsResolve(options: Options, host: Host)
    requires TestHost(host)
    ensures forall j :: 0 <= j < 4 ==> BlueprintRuns("test-app", options, host)[j].outcome.Resolved?
  {
    StepCommands("test-app", options, host);
    GitStepBehaviour("test-app", options, host);
  }
}
