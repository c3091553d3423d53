/** Properties of the command runner: what the options leave in the
    configuration whatever their order, how outcomes map to errors, and
    the scenarios of cmd_test.go and cmd_linux_test.go. */
module GoCmdProps {
  import opened Wrappers
  import opened GoCmd

  /** The fields of the configuration an option can set. */
  datatype Field = EnvField | TimeoutField | WorkingDirField | StdoutField | StderrField

  predicate Sets(o: CmdOption, f: Field)
  {
    match f
    case EnvField => o.WithEnv? || o.WithoutEnv?
    case TimeoutField => o.WithTimeout?
    case WorkingDirField => o.WithWorkingDir?
    case StdoutField => o.WithStdout? || o.WithStdStreams?
    case StderrField => o.WithStderr? || o.WithStdStreams?
  }

  predicate NoneSets(opts: seq<CmdOption>, f: Field)
  {
    forall i | 0 <= i < |opts| :: !Sets(opts[i], f)
  }

  /** The options are applied one after the other: applying a + b is
      applying a, then b. */
  lemma {:induction false} ApplyAllAppend(c: Config, expand: string -> string, a: seq<CmdOption>, b: seq<CmdOption>)
    ensures ApplyAll(c, expand, a + b) == ApplyAll(ApplyAll(c, expand, a), expand, b)
    decreases |b|
  {
    if b == [] {
      assert a + b == a;
    } else {
      var b' := b[..|b| - 1];
      assert (a + b)[..|a + b| - 1] == a + b';
      assert (a + b)[|a + b| - 1] == b[|b| - 1];
      ApplyAllAppend(c, expand, a, b');
    }
  }

  /** No option of the library changes the command or Dir, and a field no
      option sets keeps its value. */
  lemma {:induction false} Untouched(c: Config, expand: string -> string, opts: seq<CmdOption>)
    ensures ApplyAll(c, expand, opts).command == c.command
    ensures ApplyAll(c, expand, opts).dir == c.dir
    ensures NoneSets(opts, EnvField) ==> ApplyAll(c, expand, opts).env == c.env
    ensures NoneSets(opts, TimeoutField) ==> ApplyAll(c, expand, opts).timeout == c.timeout
    ensures NoneSets(opts, WorkingDirField) ==> ApplyAll(c, expand, opts).workingDir == c.workingDir
    ensures NoneSets(opts, StdoutField) ==> ApplyAll(c, expand, opts).stdout == c.stdout
    ensures NoneSets(opts, StderrField) ==> ApplyAll(c, expand, opts).stderr == c.stderr
  {
    if opts != [] {
      var init := opts[..|opts| - 1];
      Untouched(c, expand, init);
      forall f | NoneSets(opts, f) ensures NoneSets(init, f) {
        forall i | 0 <= i < |init| ensures !Sets(init[i], f) {
          assert init[i] == opts[i];
        }
      }
      forall f | NoneSets(opts, f) ensures !Sets(opts[|opts| - 1], f) {
      }
      assert EnvEntries([], expand) == [];
      var prev := ApplyAll(c, expand, init);
      assert ApplyAll(c, expand, opts) == ApplyOption(prev, opts[|opts| - 1], expand);
      if opts[|opts| - 1].WithEnv? && opts[|opts| - 1].vars == [] {
        assert prev.env + [] == prev.env;
      }
    }
  }

  /** The last WithTimeout decides the timeout. */
  lemma LastTimeoutWins(c: Config, expand: string -> string, before: seq<CmdOption>, t: int, after: seq<CmdOption>)
    requires NoneSets(after, TimeoutField)
    ensures ApplyAll(c, expand, before + [WithTimeout(t)] + after).timeout == t
  {
    ApplyAllAppend(c, expand, before + [WithTimeout(t)], after);
    ApplyAllAppend(c, expand, before, [WithTimeout(t)]);
    Untouched(ApplyAll(c, expand, before + [WithTimeout(t)]), expand, after);
  }

  /** The last WithWorkingDir decides the working directory. */
  lemma LastWorkingDirWins(c: Config, expand: string -> string, before: seq<CmdOption>, d: string, after: seq<CmdOption>)
    requires NoneSets(after, WorkingDirField)
    ensures ApplyAll(c, expand, before + [WithWorkingDir(d)] + after).workingDir == d
  {
    ApplyAllAppend(c, expand, before + [WithWorkingDir(d)], after);
    ApplyAllAppend(c, expand, before, [WithWorkingDir(d)]);
    Untouched(ApplyAll(c, expand, before + [WithWorkingDir(d)]), expand, after);
  }

  /** The last WithStdout decides the stdout sinks: the command's own
      buffer, the combined buffer, then the writers in order. */
  lemma LastStdoutWins(c: Config, expand: string -> string, before: seq<CmdOption>, ws: seq<Sink>, after: seq<CmdOption>)
    requires NoneSets(after, StdoutField)
    ensures ApplyAll(c, expand, before + [WithStdout(ws)] + after).stdout == [StdoutBuf, CombinedBuf] + ws
  {
    ApplyAllAppend(c, expand, before + [WithStdout(ws)], after);
    ApplyAllAppend(c, expand, before, [WithStdout(ws)]);
    Untouched(ApplyAll(c, expand, before + [WithStdout(ws)]), expand, after);
  }

  /** The same for WithStderr. */
  lemma LastStderrWins(c: Config, expand: string -> string, before: seq<CmdOption>, ws: seq<Sink>, after: seq<CmdOption>)
    requires NoneSets(after, StderrField)
    ensures ApplyAll(c, expand, before + [WithStderr(ws)] + after).stderr == [StderrBuf, CombinedBuf] + ws
  {
    ApplyAllAppend(c, expand, before + [WithStderr(ws)], after);
    ApplyAllAppend(c, expand, before, [WithStderr(ws)]);
    Untouched(ApplyAll(c, expand, before + [WithStderr(ws)]), expand, after);
  }

  /** The entries the WithEnv options add, in order. */
  function AddedEnv(opts: seq<CmdOption>, expand: string -> string): seq<string>
  {
    if opts == [] then []
    else
      var o := opts[|opts| - 1];
      AddedEnv(opts[..|opts| - 1], expand) + (if o.WithEnv? then EnvEntries(o.vars, expand) else [])
  }

  predicate NoClear(opts: seq<CmdOption>)
  {
    forall i | 0 <= i < |opts| :: !opts[i].WithoutEnv?
  }

  /** Without WithoutEnv the environment keeps what it had and gains the
      WithEnv entries in order. */
  lemma {:induction false} EnvKept(c: Config, expand: string -> string, opts: seq<CmdOption>)
    requires NoClear(opts)
    ensures ApplyAll(c, expand, opts).env == c.env + AddedEnv(opts, expand)
  {
    if opts == [] {
      assert c.env + [] == c.env;
    } else {
      var init := opts[..|opts| - 1];
      assert NoClear(init) by {
        forall i | 0 <= i < |init| ensures !init[i].WithoutEnv? {
          assert init[i] == opts[i];
        }
      }
      EnvKept(c, expand, init);
      var o := opts[|opts| - 1];
      assert !o.WithoutEnv?;
      var extra := if o.WithEnv? then EnvEntries(o.vars, expand) else [];
      assert ApplyAll(c, expand, opts).env == ApplyAll(c, expand, init).env + extra;
      assert (c.env + AddedEnv(init, expand)) + extra == c.env + (AddedEnv(init, expand) + extra);
    }
  }

  /** After the last WithoutEnv the env field holds only the entries added
      since (LaunchAfterClear says what the process then gets). */
  lemma EnvAfterClear(c: Config, expand: string -> string, before: seq<CmdOption>, after: seq<CmdOption>)
    requires NoClear(after)
    ensures ApplyAll(c, expand, before + [WithoutEnv] + after).env == AddedEnv(after, expand)
  {
    ApplyAllAppend(c, expand, before + [WithoutEnv], after);
    ApplyAllAppend(c, expand, before, [WithoutEnv]);
    EnvKept(ApplyAll(c, expand, before + [WithoutEnv]), expand, after);
    assert [] + AddedEnv(after, expand) == AddedEnv(after, expand);
  }

  /** What the process gets after the last WithoutEnv: exactly the entries
      added since, or, when none were added, the env field is nil and the
      process inherits the whole environment of the current process. */
  lemma LaunchAfterClear(c: Config, ctx: Context, environ: seq<string>, expand: string -> string,
                         before: seq<CmdOption>, after: seq<CmdOption>)
    requires NoClear(after)
    ensures var p := LaunchOf(ApplyAll(c, expand, before + [WithoutEnv] + after), ctx, environ);
            p.env == (if AddedEnv(after, expand) == [] then environ else AddedEnv(after, expand))
  {
    EnvAfterClear(c, expand, before, after);
  }

  /** WithoutEnv as written: with nothing added afterwards the process
      inherits the whole environment of the current process. */
  lemma ClearInherits(command: string, environ: seq<string>, expand: string -> string, ctx: Context)
    ensures LaunchOf(Configure(command, environ, expand, [WithoutEnv]), ctx, environ).env == environ
  {
    assert [WithoutEnv][..0] == [];
  }

  /** The launch with WithoutEnv corrected to set an empty, non-nil slice.
      The env field is then nil only when it was built from an empty
      environment, so the process gets the env field itself. */
  function IntendedLaunchOf(c: Config, ctx: Context): (p: Process)
    ensures p.env == c.env
    ensures p == LaunchOf(c, ctx, []).(env := c.env)
  {
    LaunchOf(c, ctx, c.env)
  }

  /** With the corrected WithoutEnv the process gets exactly the entries
      added after the last WithoutEnv, none when none were added. */
  lemma IntendedClearDropsEnviron(c: Config, ctx: Context, expand: string -> string,
                                  before: seq<CmdOption>, after: seq<CmdOption>)
    requires NoClear(after)
    ensures IntendedLaunchOf(ApplyAll(c, expand, before + [WithoutEnv] + after), ctx).env == AddedEnv(after, expand)
  {
    EnvAfterClear(c, expand, before, after);
  }

  /** Whatever library options are given, a command writes to its own
      buffers: stdout includes StdoutBuf and CombinedBuf, stderr includes
      StderrBuf and CombinedBuf. */
  lemma {:induction false} OwnBuffers(command: string, environ: seq<string>, expand: string -> string, opts: seq<CmdOption>)
    ensures var c := Configure(command, environ, expand, opts);
      StdoutBuf in c.stdout && CombinedBuf in c.stdout && StderrBuf in c.stderr && CombinedBuf in c.stderr
  {
    if opts != [] {
      OwnBuffers(command, environ, expand, opts[..|opts| - 1]);
      var prev := ApplyAll(Defaults(command, environ), expand, opts[..|opts| - 1]);
      match opts[|opts| - 1]
      case WithStdout(ws) =>
        assert ([StdoutBuf, CombinedBuf] + ws)[0] == StdoutBuf && ([StdoutBuf, CombinedBuf] + ws)[1] == CombinedBuf;
      case WithStderr(ws) =>
        assert ([StderrBuf, CombinedBuf] + ws)[0] == StderrBuf && ([StderrBuf, CombinedBuf] + ws)[1] == CombinedBuf;
      case _ =>
    }
  }

  /** How the outcome of the process becomes RunContext's error. */
  lemma RunResultCases(timeout: int, ctx: Context, o: Outcome)
    ensures RunResult(timeout, ctx, o).None? <==> o.Completed?
    ensures o.StartFailed? ==> RunResult(timeout, ctx, o) == Some(StartError(o.message))
    ensures o.Cancelled? && o.kill.Some? ==> RunResult(timeout, ctx, o) == Some(KillError(o.pid, o.kill.value))
    ensures o.Cancelled? && o.kill.None? ==>
      (RunResult(timeout, ctx, o) == Some(TimeoutAfter(timeout)) <==> UsesDerivedTimeout(timeout, ctx.hasDeadline))
    ensures o.Cancelled? && o.kill.None? && !UsesDerivedTimeout(timeout, ctx.hasDeadline) ==>
      RunResult(timeout, ctx, o) == Some(ContextError(o.ctxErr))
  {
  }

  /** Executed is set by every run that started, and only by those. */
  lemma ExecutedRule(r: Results, o: Outcome)
    ensures ResultsAfter(r, o).executed <==> r.executed || !o.StartFailed?
    ensures o.StartFailed? ==> ResultsAfter(r, o) == r
  {
  }

  /** A started run whose wait reports an exit status returns no error and
      records the status; any other ending keeps the exit code. */
  lemma ExitStatusRule(r: Results, timeout: int, ctx: Context, o: Outcome)
    ensures o.Completed? ==> RunResult(timeout, ctx, o).None?
    ensures o.Completed? && o.wait.ExitError? && o.wait.status.Some? ==>
      ResultsAfter(r, o).exitCode == o.wait.status.value
    ensures !(o.Completed? && o.wait.ExitError? && o.wait.status.Some?) ==>
      ResultsAfter(r, o).exitCode == r.exitCode
  {
  }

  /** Dir plays no part in what is launched: WorkingDir is the directory. */
  lemma DirIgnored(c: Config, ctx: Context, environ: seq<string>, d: string)
    ensures LaunchOf(c.(dir := d), ctx, environ) == LaunchOf(c, ctx, environ)
    ensures LaunchOf(c, ctx, environ).dir == c.workingDir
  {
  }

  /** The timeout of New is one minute, the sinks the command's own buffers. */
  lemma DefaultsOf(command: string, environ: seq<string>, expand: string -> string)
    ensures Configure(command, environ, expand, []) ==
      Config(command, environ, "", 60 * Second, [StdoutBuf, CombinedBuf], [StderrBuf, CombinedBuf], "")
  {
  }

  // Scenarios of cmd_test.go and cmd_linux_test.go, with the process's
  // behaviour given as the outcome it produces.

  /** cmd_test.go:22-30: the run returns no error, sets Executed, and Stdout
      is what the process wrote. */
  method ExecuteExample(environ: seq<string>, expand: string -> string)
    returns (err: Option<RunError>, executed: bool, out: Fatal<string>)
    ensures err.None? && executed && out == Value("hello\n")
  {
    var c := new Cmd("echo hello", environ, expand, []);
    err := c.Run(environ, (p: Process) => Completed(NoError, Output("hello\n", "", "hello\n")));
    executed := c.executed;
    assert c.stdoutBuf == "" + "hello\n" == "hello\n";
    out := c.Stdout();
  }

  /** cmd_test.go:32-39: exit 120 is not an error, and ExitCode is 120. */
  method ExitCodeExample(environ: seq<string>, expand: string -> string)
    returns (err: Option<RunError>, code: Fatal<int>)
    ensures err.None? && code == Value(120)
  {
    var c := new Cmd("exit 120", environ, expand, []);
    err := c.Run(environ, (p: Process) => Completed(ExitError(Some(120)), Output("", "", "")));
    code := c.ExitCode();
  }

  lemma StdoutMessage()
    ensures NotExecuted("Stdout") == "Can not read Stdout if command was not Executed."
  {
    var a, b := "Can not read ", " if command was not Executed.";
    assert a + "Stdout" == "Can not read Stdout";
    assert "Can not read Stdout" + b == "Can not read Stdout if command was not Executed.";
  }

  /** cmd_test.go:54-65: reading Stdout before a run panics. */
  method NotExecutedExample(environ: seq<string>, expand: string -> string) returns (out: Fatal<string>)
    ensures out == Panic("Can not read Stdout if command was not Executed.")
  {
    var c := new Cmd("echo will not be Executed", environ, expand, []);
    out := c.Stdout();
    StdoutMessage();
  }

  /** cmd_test.go:67-71: WithoutEnv, then AddEnv("key", "value"). */
  method AddEnvExample(environ: seq<string>, expand: string -> string) returns (env: seq<string>)
    requires expand("value") == "value"
    ensures env == ["key=value"]
  {
    var c := new Cmd("echo test", environ, expand, [WithoutEnv]);
    assert [WithoutEnv][..0] == [];
    c.AddEnv("key", "value", expand);
    env := c.env;
    assert env == [] + [EnvEntry("key", "value")];
    assert EnvEntry("key", "value") == "key=value";
  }

  /** cmd_linux_test.go:83-88: the working directory reaches the process,
      whose start fails; Executed stays false. */
  method InvalidDirExample(environ: seq<string>, expand: string -> string)
    returns (err: Option<RunError>, executed: bool)
    ensures err == Some(StartError("chdir /invalid: no such file or directory")) && !executed
  {
    var c := new Cmd("echo hello", environ, expand, [WithWorkingDir("/invalid")]);
    assert [WithWorkingDir("/invalid")][..0] == [];
    err := c.Run(environ, (p: Process) =>
      if p.dir == "/invalid" then StartFailed("chdir /invalid: no such file or directory")
      else Completed(NoError, Output("hello\n", "", "hello\n")));
    executed := c.executed;
  }

  /** cmd_linux_test.go:135-150: a one-second timeout that expires is
      reported as such; under a context with a deadline the context's error
      is reported instead, and no timeout is derived. */
  method TimeoutExample(environ: seq<string>, expand: string -> string)
    returns (first: Option<RunError>, second: Option<RunError>, derived: Option<int>)
    ensures first == Some(TimeoutAfter(Second))
    ensures second == Some(ContextError(DeadlineExceeded))
    ensures derived.None?
  {
    var expired := (p: Process) => Cancelled(4242, None, DeadlineExceeded, Output("", "", ""));
    var c := new Cmd("sleep 3;", environ, expand, [WithTimeout(Second)]);
    assert [WithTimeout(Second)][..0] == [];
    first := c.Run(environ, expired);
    var d := new Cmd("sleep 3;", environ, expand, [WithTimeout(Second)]);
    second := d.RunContext(Context(true), environ, expired);
    derived := LaunchOf(d.Configuration(), Context(true), environ).timeout;
  }

  /** cmd_linux_test.go:106-126: an extra writer for one stream joins the
      command's own buffers for that stream only. */
  method CustomStdoutExample(environ: seq<string>, expand: string -> string)
    returns (stdout: seq<Sink>, stderr: seq<Sink>)
    ensures stdout == [StdoutBuf, CombinedBuf, Writer(1)]
    ensures stderr == [StderrBuf, CombinedBuf]
  {
    var cmd, opts := ">&2 echo StderrBuf; sleep 0.01; echo StdoutBuf;", [WithStdout([Writer(1)])];
    var c := new Cmd(cmd, environ, expand, opts);
    var d := Defaults(cmd, environ);
    assert opts[..0] == [] && |opts| == 1;
    assert ApplyAll(d, expand, opts[..0]) == d;
    assert ApplyAll(d, expand, opts) == ApplyOption(ApplyAll(d, expand, opts[..0]), opts[0], expand);
    stdout, stderr := c.stdoutSinks, c.stderrSinks;
  }
}
