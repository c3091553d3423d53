/** The bookkeeping of the command runner in cmd.go: how a command is
    configured by its options, which environment and output sinks it is
    started with, how the outcome of the process becomes the error RunContext
    returns, and the Executed flag that guards the accessors. The operating
    system process is a function from what is launched to its outcome. */
module GoCmd {
  import opened Wrappers

  /** time.Duration counts nanoseconds. */
  const Second: int := 1_000_000_000
  const Minute: int := 60 * Second

  /** The timeout New sets (cmd.go:64). */
  const DefaultTimeout: int := Minute

  /** A destination of the process's output: the command's own buffers, the
      operating system's standard streams, or an extra writer of the caller. */
  datatype Sink = StdoutBuf | StderrBuf | CombinedBuf | OsStdout | OsStderr | Writer(id: nat)

  /** The options New applies, one per option function of cmd.go. WithEnv
      lists the map's entries in the order Go's map iteration yields them. */
  datatype CmdOption =
    | WithStdStreams
    | WithStdout(writers: seq<Sink>)
    | WithStderr(writers: seq<Sink>)
    | WithTimeout(t: int)
    | WithWorkingDir(workDir: string)
    | WithEnv(vars: seq<(string, string)>)
    | WithoutEnv

  /** The fields of Cmd that the options and AddEnv set. */
  datatype Config = Config(
    command: string,
    env: seq<string>,
    dir: string,
    timeout: int,
    stdout: seq<Sink>,
    stderr: seq<Sink>,
    workingDir: string)

  /** The fields of Cmd that running it sets. */
  datatype Results = Results(executed: bool, exitCode: int, stdout: string, stderr: string, combined: string)

  /** The caller's context: whether it carries a deadline of its own. */
  datatype Context = Context(hasDeadline: bool)

  /** context.Background() */
  const Background: Context := Context(false)

  /** What ctx.Err() reports once the context is done. */
  datatype CtxError = Canceled | DeadlineExceeded

  /** What the process is started with: the effective environment, working
      directory and sinks, and the derived timeout if there is one. */
  datatype Process = Process(
    command: string,
    env: seq<string>,
    dir: string,
    stdout: seq<Sink>,
    stderr: seq<Sink>,
    timeout: Option<int>)

  /** What the process wrote to the two streams, and to both in their order. */
  datatype Output = Output(stdout: string, stderr: string, combined: string)

  /** The error cmd.Wait returns: none, an exec.ExitError (with the exit
      status of its wait status, when it has one), or another error. */
  datatype WaitError = NoError | ExitError(status: Option<int>) | OtherError(message: string)

  /** How the process ended: it did not start, it ended by itself, or the
      context was done first and the process group was signalled (kill holds
      the error of that signal, if any). */
  datatype Outcome =
    | StartFailed(message: string)
    | Completed(wait: WaitError, output: Output)
    | Cancelled(pid: int, kill: Option<string>, ctxErr: CtxError, output: Output)

  /** The errors RunContext returns. */
  datatype RunError =
    | StartError(message: string)
    | KillError(pid: int, message: string)
    | TimeoutAfter(timeout: int)
    | ContextError(err: CtxError)

  /** The environment entry AddEnv appends. */
  function EnvEntry(key: string, value: string): (e: string)
    ensures |e| == |key| + 1 + |value| && e[|key|] == '='
    ensures e[..|key|] == key && e[|key| + 1..] == value
  {
    key + "=" + value
  }

  /** The entries AddEnv appends for each pair, in order, the value expanded. */
  function EnvEntries(vars: seq<(string, string)>, expand: string -> string): (r: seq<string>)
    ensures |r| == |vars|
    ensures forall i | 0 <= i < |vars| :: r[i] == EnvEntry(vars[i].0, expand(vars[i].1))
  {
    if vars == [] then []
    else EnvEntries(vars[..|vars| - 1], expand) + [EnvEntry(vars[|vars| - 1].0, expand(vars[|vars| - 1].1))]
  }

  /** The configuration New makes before it applies the options. */
  function Defaults(command: string, environ: seq<string>): Config
  {
    Config(command, environ, "", DefaultTimeout, [StdoutBuf, CombinedBuf], [StderrBuf, CombinedBuf], "")
  }

  /** What one option does to the configuration. */
  function ApplyOption(c: Config, o: CmdOption, expand: string -> string): (c': Config)
    ensures c'.command == c.command && c'.dir == c.dir
    ensures !o.WithEnv? && !o.WithoutEnv? ==> c'.env == c.env
  {
    match o
    case WithStdStreams => c.(stdout := [OsStdout, StdoutBuf, CombinedBuf], stderr := [OsStderr, StderrBuf, CombinedBuf])
    case WithStdout(ws) => c.(stdout := [StdoutBuf, CombinedBuf] + ws)
    case WithStderr(ws) => c.(stderr := [StderrBuf, CombinedBuf] + ws)
    case WithTimeout(t) => c.(timeout := t)
    case WithWorkingDir(d) => c.(workingDir := d)
    case WithEnv(vars) => c.(env := c.env + EnvEntries(vars, expand))
    case WithoutEnv => c.(env := [])
  }

  /** The options applied in the order given. */
  function ApplyAll(c: Config, expand: string -> string, opts: seq<CmdOption>): Config
  {
    if opts == [] then c
    else ApplyOption(ApplyAll(c, expand, opts[..|opts| - 1]), opts[|opts| - 1], expand)
  }

  function Configure(command: string, environ: seq<string>, expand: string -> string, opts: seq<CmdOption>): Config
  {
    ApplyAll(Defaults(command, environ), expand, opts)
  }

  /** The message checkExecuted panics with when the command has not run. */
  function NotExecuted(property: string): string
  {
    "Can not read " + property + " if command was not Executed."
  }

  /** checkExecuted: the panic message, or None when the command has run. */
  function CheckExecuted(executed: bool, property: string): (r: Option<string>)
    ensures r.None? <==> executed
    ensures r.Some? ==> r.value == NotExecuted(property)
  {
    if executed then None else Some(NotExecuted(property))
  }

  /** A derived timeout is used when Timeout is positive and the caller's
      context has no deadline of its own. */
  predicate UsesDerivedTimeout(timeout: int, hasDeadline: bool)
  {
    timeout > 0 && !hasDeadline
  }

  /** The environment the process starts with. The env field is nil exactly
      when it is empty (appending nothing to nil leaves nil, WithoutEnv sets
      nil, AddEnv always appends), and os/exec starts a process whose Env is
      nil with the environment of the current process, environ. */
  function ProcessEnv(env: seq<string>, environ: seq<string>): (r: seq<string>)
    ensures env != [] ==> r == env
    ensures env == [] ==> r == environ
  {
    if env == [] then environ else env
  }

  /** What RunContext hands to the process, environ being the environment
      of the current process when it starts the command. */
  function LaunchOf(c: Config, ctx: Context, environ: seq<string>): (p: Process)
    ensures p.command == c.command && p.dir == c.workingDir
    ensures c.env != [] ==> p.env == c.env
    ensures c.env == [] ==> p.env == environ
    ensures p.stdout == c.stdout && p.stderr == c.stderr
    ensures p.timeout.Some? <==> UsesDerivedTimeout(c.timeout, ctx.hasDeadline)
    ensures p.timeout.Some? ==> p.timeout.value == c.timeout
  {
    Process(c.command, ProcessEnv(c.env, environ), c.workingDir, c.stdout, c.stderr,
            if UsesDerivedTimeout(c.timeout, ctx.hasDeadline) then Some(c.timeout) else None)
  }

  /** The error RunContext returns for an outcome. */
  function RunResult(timeout: int, ctx: Context, o: Outcome): (r: Option<RunError>)
    ensures r.Some? && r.value.TimeoutAfter? ==> UsesDerivedTimeout(timeout, ctx.hasDeadline) && r.value.timeout == timeout
    ensures r.Some? && r.value.ContextError? ==> !UsesDerivedTimeout(timeout, ctx.hasDeadline)
  {
    match o
    case StartFailed(m) => Some(StartError(m))
    case Completed(_, _) => None
    case Cancelled(pid, kill, e, _) =>
      if kill.Some? then Some(KillError(pid, kill.value))
      else if UsesDerivedTimeout(timeout, ctx.hasDeadline) then Some(TimeoutAfter(timeout))
      else Some(ContextError(e))
  }

  /** getExitCode: the exit status when the wait error carries one, the
      previous code otherwise. */
  function ExitCodeOf(code: int, w: WaitError): (r: int)
    ensures r == code || (w.ExitError? && w.status == Some(r))
  {
    if w.ExitError? && w.status.Some? then w.status.value else code
  }

  /** The run fields after an outcome: nothing changes when the process did
      not start; otherwise Executed is set, the buffers grow by what the
      process wrote, and a completed wait may set the exit code. */
  function ResultsAfter(r: Results, o: Outcome): (r': Results)
    ensures r.executed ==> r'.executed
    ensures r.stdout <= r'.stdout && r.stderr <= r'.stderr && r.combined <= r'.combined
  {
    match o
    case StartFailed(_) => r
    case Completed(w, out) =>
      Results(true, ExitCodeOf(r.exitCode, w), r.stdout + out.stdout, r.stderr + out.stderr, r.combined + out.combined)
    case Cancelled(_, _, _, out) =>
      Results(true, r.exitCode, r.stdout + out.stdout, r.stderr + out.stderr, r.combined + out.combined)
  }

  /** A command (cmd.go, type Cmd). */
  class Cmd {
    var command: string
    var env: seq<string>
    var dir: string
    var timeout: int
    var stdoutSinks: seq<Sink>
    var stderrSinks: seq<Sink>
    var workingDir: string
    var executed: bool
    var exitCode: int
    var stdoutBuf: string
    var stderrBuf: string
    var combinedBuf: string

    function Configuration(): Config
      reads this
    {
      Config(command, env, dir, timeout, stdoutSinks, stderrSinks, workingDir)
    }

    function RunFields(): Results
      reads this
    {
      Results(executed, exitCode, stdoutBuf, stderrBuf, combinedBuf)
    }

    /** New: the defaults, then each option in the order given. environ is
        what os.Environ returns and expand stands for os.ExpandEnv. */
    constructor (cmd: string, environ: seq<string>, expand: string -> string, options: seq<CmdOption>)
      ensures Configuration() == Configure(cmd, environ, expand, options)
      ensures RunFields() == Results(false, 0, "", "", "")
    {
      command := cmd;
      timeout := DefaultTimeout;
      env := environ;
      dir := "";
      workingDir := "";
      stdoutSinks := [StdoutBuf, CombinedBuf];
      stderrSinks := [StderrBuf, CombinedBuf];
      executed := false;
      exitCode := 0;
      stdoutBuf, stderrBuf, combinedBuf := "", "", "";
      new;
      var i := 0;
      while i < |options|
        invariant 0 <= i <= |options|
        invariant Configuration() == ApplyAll(Defaults(cmd, environ), expand, options[..i])
        invariant RunFields() == Results(false, 0, "", "", "")
      {
        Apply(options[i], expand);
        assert options[..i + 1][..i] == options[..i];
        i := i + 1;
      }
      assert options[..|options|] == options;
    }

    /** Calling one option function on the command. */
    method Apply(o: CmdOption, expand: string -> string)
      modifies this
      ensures Configuration() == ApplyOption(old(Configuration()), o, expand)
      ensures RunFields() == old(RunFields())
    {
      match o
      case WithStdStreams =>
        stdoutSinks := [OsStdout, StdoutBuf, CombinedBuf];
        stderrSinks := [OsStderr, StderrBuf, CombinedBuf];
      case WithStdout(ws) =>
        stdoutSinks := [StdoutBuf, CombinedBuf] + ws;
      case WithStderr(ws) =>
        stderrSinks := [StderrBuf, CombinedBuf] + ws;
      case WithTimeout(t) =>
        timeout := t;
      case WithWorkingDir(d) =>
        workingDir := d;
      case WithEnv(vars) =>
        AddEnvs(vars, expand);
      case WithoutEnv =>
        env := [];
    }

    /** The loop of WithEnv: AddEnv for each entry in turn. */
    method AddEnvs(vars: seq<(string, string)>, expand: string -> string)
      modifies this
      ensures Configuration() == old(Configuration()).(env := old(env) + EnvEntries(vars, expand))
      ensures RunFields() == old(RunFields())
    {
      var i := 0;
      while i < |vars|
        invariant 0 <= i <= |vars|
        invariant Configuration() == old(Configuration()).(env := old(env) + EnvEntries(vars[..i], expand))
        invariant RunFields() == old(RunFields())
      {
        AddEnv(vars[i].0, vars[i].1, expand);
        assert vars[..i + 1][..i] == vars[..i];
        i := i + 1;
      }
      assert vars[..|vars|] == vars;
    }

    /** AddEnv: one entry key=value at the end, with the value expanded. */
    method AddEnv(key: string, value: string, expand: string -> string)
      modifies this
      ensures Configuration() == old(Configuration()).(env := old(env) + [EnvEntry(key, expand(value))])
      ensures RunFields() == old(RunFields())
    {
      var v := expand(value);
      env := env + [key + "=" + v];
    }

    /** Stdout, Stderr, Combined and ExitCode: the value once the command
        has run, a panic before. */
    function Stdout(): (r: Fatal<string>)
      reads this
      ensures r.Value? <==> executed
      ensures r.Value? ==> r.value == stdoutBuf
      ensures r.Panic? ==> r.message == NotExecuted("Stdout")
    {
      var check := CheckExecuted(executed, "Stdout");
      if check.Some? then Panic(check.value) else Value(stdoutBuf)
    }

    function Stderr(): (r: Fatal<string>)
      reads this
      ensures r.Value? <==> executed
      ensures r.Value? ==> r.value == stderrBuf
      ensures r.Panic? ==> r.message == NotExecuted("Stderr")
    {
      var check := CheckExecuted(executed, "Stderr");
      if check.Some? then Panic(check.value) else Value(stderrBuf)
    }

    function Combined(): (r: Fatal<string>)
      reads this
      ensures r.Value? <==> executed
      ensures r.Value? ==> r.value == combinedBuf
      ensures r.Panic? ==> r.message == NotExecuted("Combined")
    {
      var check := CheckExecuted(executed, "Combined");
      if check.Some? then Panic(check.value) else Value(combinedBuf)
    }

    function ExitCode(): (r: Fatal<int>)
      reads this
      ensures r.Value? <==> executed
      ensures r.Value? ==> r.value == exitCode
      ensures r.Panic? ==> r.message == NotExecuted("ExitCode")
    {
      var check := CheckExecuted(executed, "ExitCode");
      if check.Some? then Panic(check.value) else Value(exitCode)
    }

    /** RunContext: start the process with the effective configuration, then
        map its outcome to the error returned. environ is the environment of
        the current process at that moment. */
    method RunContext(ctx: Context, environ: seq<string>, process: Process -> Outcome) returns (err: Option<RunError>)
      modifies this
      ensures Configuration() == old(Configuration())
      ensures err == RunResult(old(timeout), ctx, process(LaunchOf(old(Configuration()), ctx, environ)))
      ensures RunFields() == ResultsAfter(old(RunFields()), process(LaunchOf(old(Configuration()), ctx, environ)))
    {
      var procEnv := env;
      if procEnv == [] {
        // os/exec: a nil Env means the environment of the current process
        procEnv := environ;
      }
      var procDir := dir;
      procDir := workingDir;
      var timeoutCtx := timeout > 0 && !ctx.hasDeadline;
      var deadline := if timeoutCtx then Some(timeout) else None;
      var outcome := process(Process(command, procEnv, procDir, stdoutSinks, stderrSinks, deadline));
      if outcome.StartFailed? {
        return Some(StartError(outcome.message));
      }
      stdoutBuf := stdoutBuf + outcome.output.stdout;
      stderrBuf := stderrBuf + outcome.output.stderr;
      combinedBuf := combinedBuf + outcome.output.combined;
      // the deferred assignment runs on every return below
      executed := true;
      match outcome
      case Cancelled(pid, kill, ctxErr, _) =>
        if kill.Some? {
          return Some(KillError(pid, kill.value));
        }
        if timeoutCtx {
          return Some(TimeoutAfter(timeout));
        }
        return Some(ContextError(ctxErr));
      case Completed(w, _) =>
        GetExitCode(w);
        return None;
    }

    /** Run: RunContext with the background context. */
    method Run(environ: seq<string>, process: Process -> Outcome) returns (err: Option<RunError>)
      modifies this
      ensures Configuration() == old(Configuration())
      ensures err == RunResult(old(timeout), Background, process(LaunchOf(old(Configuration()), Background, environ)))
      ensures RunFields() == ResultsAfter(old(RunFields()), process(LaunchOf(old(Configuration()), Background, environ)))
    {
      err := RunContext(Background, environ, process);
    }

    /** getExitCode */
    method GetExitCode(w: WaitError)
      modifies this
      ensures Configuration() == old(Configuration())
      ensures RunFields() == old(RunFields()).(exitCode := ExitCodeOf(old(exitCode), w))
    {
      if w.ExitError? {
        if w.status.Some? {
          exitCode := w.status.value;
        }
      }
    }
  }
}
