# gocmd in Dafny

This project models the core of gocmd, a Go library for running shell
commands. It has three parts.

- **The command runner** (`cmd.go`, module `GoCmd` in `cmd.dfy`). A `Cmd`
  holds a command line, an environment, a timeout, a working directory and
  the sinks for stdout and stderr. Functional options change these fields.
  `RunContext` launches the process under a context and records the exit
  code, `Executed` and the output buffers. Reading `Stdout`, `Stderr`,
  `Combined` or `ExitCode` before a run panics.
  - The operating system process is a parameter, a function from what is
    launched (`Process`) to what happened (`Outcome`). So the model states
    exactly what `RunContext` hands to the process and how it turns each
    outcome into an error and the new run fields.
  - `os.Environ` and `os.ExpandEnv` are also parameters.
- **The line decoder** (`linestream/stream.go`, module `Linestream` in
  `linestream.dfy`). A `LineStream` is an `io.Writer`. It cuts the bytes
  written to it into lines and passes each finished line to a callback. The
  unterminated tail of a write is kept in a fixed-size buffer for the next
  write. When that tail does not fit, `Write` reports
  `ErrLineBufferOverflow`.
  - `Write` is proved against a specification function, `WriteSpec`.
  - `linestream_props.dfy` proves properties of `WriteSpec`. It states the
    count returned, the error case, one line per newline and the retry
    after an overflow. It also proves agreement with a separate reference
    line splitter, and that splitting a stream into several writes does not
    change the lines.
- **The shell quoter** (`shellquote/shellquote.go`, module `ShellQuote` in
  `shellquote.dfy`). `Quote` leaves a token alone when it has only safe
  characters and otherwise escapes it into single quotes. Runs of quotes
  are rewritten by a regular expression. The quoted tokens are joined by
  spaces.
  - `shellwords.dfy` is a reference reader for the words a POSIX shell
    reads from a line. It covers the part of the shell language the quoter
    produces.
  - `shellquote_props.dfy` proves that the shell splits each quoted line
    back into exactly the given tokens (`QuoteRoundTrip`). It also proves the
    rules for when a token is escaped. Splitting into words is all it
    proves: `!` and reserved words such as `if` are left bare
    (`ShellQuoteExamples.ReservedWordsBare`), and a shell reads them as
    syntax when they stand first.

`bytes.dfy` holds the shared `Option`/`Result` wrappers, `Fatal` (a value
or a Go panic with its message), and byte helpers.

Where the documentation and the code disagree, the model follows the code:

- **Carriage returns in the line decoder.** The code (`linestream/stream.go:88-91`)
  drops a carriage return before a newline, but it tests
  `p[newlineOffset-1]`. That index is relative to the start of the current
  line, not to the start of `p`. So on later lines in one write it tests the
  wrong byte: `"a\r\nbc\n"` gives `"a"` and `"b"`
  (`LinestreamProps.CarriageReturnProbe`), and `"ab\nc\r\n"` gives `"ab"` and
  `"c\r"` (`LinestreamProps.CarriageReturnKept`). `LineEnd` and `Write` model
  the code as it is written. The corrected test is given beside it (see
  "## Findings").
- **Clearing the environment.** `WithoutEnv` is documented as clearing the
  environment, but it sets the field to nil (`cmd.go:157-161`). `RunContext`
  passes it on as `cmd.Env` (`cmd.go:210`), and `os/exec` starts a process
  whose `Env` is nil with the environment of the current process. So, unless
  entries are added later, the command inherits the whole environment
  (`GoCmdProps.LaunchAfterClear`). The corrected form is given beside it
  (see "## Findings").
- **The default timeout.** The code of `New` sets it to one minute
  (`cmd.go:64`). The documentation at `cmd.go:48` says 30 minutes.
  `GoCmd.DefaultTimeout` is one minute.
- **`WithStdStreams`.** Its documentation uses it as `cmd.WithStdStreams`
  (`cmd.go:59`) and as `cmd.WithStdStreams()` (`cmd.go:100`). The code
  declares `WithStdStreams(c *Cmd) func(c *Cmd)` (`cmd.go:102`), so neither
  use compiles: it must be called with a `*Cmd`, which it ignores, to get
  the option. The model's `WithStdStreams` is that returned option, with no
  argument.
- **The working directory.** `RunContext` sets `Dir` from `c.Dir` and then
  overwrites it with `c.WorkingDir` (`cmd.go:211-214`). The process always
  gets `WorkingDir` (`GoCmdProps.DirIgnored`).

## Model

| member | source | states |
|---|---|---|
| Linestream.IndexByte | linestream/stream.go:81-84 | `bytes.IndexByte`: the result is -1 or an index of `p` holding the byte |
| Linestream.IndexByteFirst | linestream/stream.go:81-84 | the index found is the first occurrence of the byte, and -1 means the byte does not occur |
| Linestream.LineEnd | linestream/stream.go:86-91 | a line ends at its newline or one byte earlier; the byte probed is at `off - 1` from the start of `p`, and only when `off > 0` |
| Linestream.Scan | linestream/stream.go:75-104 | the scanning loop stops at an offset between its start and the end of `p` |
| Linestream.ScanTail | linestream/stream.go:75-104 | the scan stops just after a newline or where it started, and the tail it leaves holds no newline |
| Linestream.Prefixed | linestream/stream.go:93-100 | one emitted line per segment: the carried bytes go in front of the first line only |
| Linestream.LineStream.constructor | linestream/stream.go:58-67 | `New`: a buffer of `DefaultLineBufferSize` (16384) bytes, nothing carried, nothing emitted |
| Linestream.LineStream.SetLineBufferSize | linestream/stream.go:139 | the buffer size becomes `n`, with a fresh zero-filled buffer of `n` bytes; `lastChar` is kept, so the carry becomes `lastChar` zero bytes |
| Linestream.LineStream.EmitLines | linestream/stream.go:71-104 | the loop emits, in order, the carried bytes followed by the first line, then each later line; the carry is reset once a line was sent; the returned offset is where the unterminated tail starts |
| Linestream.LineStream.Keep | linestream/stream.go:106-129 | a tail longer than the free buffer gives `ErrLineBufferOverflow` with the carried bytes plus the tail, the buffer size and the free byte count, and `n` is the tail's offset; otherwise the tail is appended to the carry and `n` is `len(p)` |
| Linestream.LineStream.Write | linestream/stream.go:71-132 | one write returns the count, error, emitted lines and new carry given by `WriteSpec` of the old carry, the buffer size and `p` |
| Linestream.TooLongBy | linestream/stream.go:160-163 | the count `Error()` reports is the number of bytes by which the line exceeds the buffer size, positive exactly when the line is longer than the buffer |
| Linestream.WriteSpec | linestream/stream.go:71-132 | what one write does, from the carried bytes, the buffer size and `p`: it scans `p` for lines, puts the carry in front of the first, and then either overflows at the tail's offset with the carry kept or appends the tail to the carry; its contract states that `n` lies within `p` and is `len(p)` when there is no error, that the new carry fits the buffer, and that an overflow reports the buffer size and the free bytes of the carry it keeps |
| LinestreamProps.ScanCount | linestream/stream.go:75-104 | the scan adds exactly one line per newline in `p` from its start on |
| LinestreamProps.ScanNoNewline | linestream/stream.go:75-104 | when the lines so far hold no newline, no line the scan cuts holds one |
| LinestreamProps.WriteCount | linestream/stream.go:72-131 | `Write` returns `n == len(p)` exactly when there is no error; on an overflow, `n` is 0 or just after a newline, and no newline follows it |
| LinestreamProps.WriteLineCount | linestream/stream.go:75-104 | a write emits exactly as many lines as `p` holds newlines, overflow or not |
| LinestreamProps.WriteLinesNoNewline | linestream/stream.go:93-100 | no emitted line contains a newline when the carry holds none |
| LinestreamProps.OverflowFields | linestream/stream.go:106-124 | on an overflow the carry is the old one when no line was sent and empty otherwise; the error's line is that carry plus `p[n:]`, its size is the buffer size, its free count is the size minus the carry and smaller than the rest; `Error()` reports a positive excess |
| LinestreamProps.CarryFields | linestream/stream.go:106-129 | without an error, the new carry fits the buffer; it is the old carry plus `p` when no line was sent, and otherwise the bytes of `p` after its last newline |
| LinestreamProps.CarryNoNewline | linestream/stream.go:106-129 | the carry after a write holds no newline |
| LinestreamProps.OverflowRetry | linestream/stream.go:106-124 | writing the unconsumed rest again gives the same overflow and consumes nothing |
| LinestreamProps.WriteIsSplit | linestream/stream.go:71-132 | for input without carriage returns, a write emits exactly the lines a reference splitter finds in the carry plus `p`; it overflows exactly when the splitter's rest exceeds the buffer; that rest is the new carry or the overflow's line |
| LinestreamProps.WriteChunks | linestream/stream.go:71-132 | for input without carriage returns, two writes that do not overflow emit the same lines and leave the same carry as one write of both chunks |
| LinestreamProps.TwoLines | stream_test.go:10-55 | "foo\nbar\n" gives "foo" and "bar" |
| LinestreamProps.BlankLineInside | stream_test.go:62-86 | "foo\n\nbar\n" gives "foo", "" and "bar" |
| LinestreamProps.BlankLinesOnly | stream_test.go:88-114 | "\n\n\n" gives three empty lines |
| LinestreamProps.BlankLinesAtEnd | stream_test.go:116-142 | "foo\n\n\n" gives "foo" and two empty lines |
| LinestreamProps.CarriageReturns | stream_test.go:146-179 | "foo\r\nbar\r\n" gives "foo" and "bar" |
| LinestreamProps.CarriageReturnProbe | linestream/stream.go:88-91 | "a\r\nbc\n" gives "a" and "b": the carriage-return test reads a byte of the first line |
| LinestreamProps.CarriageReturnKept | linestream/stream.go:88-91 | "ab\nc\r\n" gives "ab" and "c\r": on a later line the carriage return can stay |
| LinestreamProps.IntendedLineEndDropsCR | linestream/stream.go:86-91 | with the byte before the newline tested within the current line, the line is its segment minus exactly one carriage return standing right before the newline, and nothing else |
| LinestreamProps.LineBuffering | stream_test.go:181-235 | three writes of "foo" emit nothing and are carried; a write of "bar\n" then emits "foofoofoobar" |
| LinestreamProps.OverflowInOneWrite | stream_test.go:237-318 | a write of "bc\n" and a line longer than the buffer emits "bc", consumes 3 bytes and reports the long line with the whole buffer free; a later "foo\n" gives "foo" |
| LinestreamProps.OverflowOnSecondWrite | stream_test.go:320-375 | "foo\nbar" gives "foo" and carries "bar"; a second write of a buffer's worth of "X" consumes nothing and reports "bar" plus the X's with the buffer size minus 3 free |
| LinestreamProps.DoubledBuffer | stream_test.go:377-431 | with the buffer doubled, the same write consumes everything: it emits "bc" and the long line up to its newline, and carries the three zero bytes after it |
| ShellQuote.IsSafe | shellquote/shellquote.go:58 | a character outside the class `[^\w!%+,\-./:=@^]`; no safe character is a blank, NUL, quote, backslash, operator, expansion, glob or comment character |
| ShellQuote.HasUnsafe | shellquote/shellquote.go:58-63 | the class matches somewhere in the token; a token with a quote, a blank or a backslash always has an unsafe character |
| ShellQuote.ReplaceQuotes | shellquote/shellquote.go:64 | a token without quotes is unchanged |
| ShellQuote.SimplifyMatch | shellquote/shellquote.go:67-73 | the replacement function gives `'"`, one quote per four characters of the match, then `"'` |
| ShellQuote.Collapse | shellquote/shellquote.go:66-73 | `ReplaceAllStringFunc` with `(?:'\\''){2,}`: leftmost matches, each as long as it can be, replaced by `SimplifyMatch`; the result is never longer than its input, and text without quotes is unchanged (`ShellQuoteProps.CollapseRuns` gives the full effect) |
| ShellQuote.TrimSuffix | shellquote/shellquote.go:76 | `strings.TrimSuffix(s, "''")` takes off at most one trailing `''` |
| ShellQuote.TrimPrefix | shellquote/shellquote.go:77 | `strings.TrimPrefix(s, "''")` takes off at most one leading `''` |
| ShellQuote.Escape | shellquote/shellquote.go:63-77 | the escaping branch: replace quotes, collapse runs, wrap in single quotes, trim one `''` at each end; what it means is stated by `ShellQuoteProps.EscapeReads`, `EscapeFirst` and `EscapeNoQuote` |
| ShellQuote.QuoteToken | shellquote/shellquote.go:39-82 | one token: the empty token becomes `''`, a token the rule escapes becomes `Escape` of it, any other stays as it is; its properties are `ShellQuoteProps.TokenReads` and `UnchangedIff` |
| ShellQuote.Join | shellquote/shellquote.go:85 | `strings.Join(parts, " ")`; `ShellQuoteProps.JoinReads` states that the words come back |
| ShellQuote.SawNonEqualNext | shellquote/shellquote.go:40-56 | the flag after a token is set exactly when it was set before or the token is non-empty and holds no `=`; empty tokens are skipped |
| ShellQuote.QuotedTokens | shellquote/shellquote.go:36-83 | one quoted form per token |
| ShellQuote.QuoteSpec | shellquote/shellquote.go:36-86 | the result is `ErrNull` exactly when some non-empty token holds a NUL |
| ShellQuote.QuoteNonEmpty | shellquote/shellquote.go:48-82 | the loop body for a non-empty token without NUL: the token is escaped when it holds `=` and the flag is clear, or holds an unsafe character; the flag is set by a token without `=` |
| ShellQuote.Quote | shellquote/shellquote.go:36-86 | the loop returns `ErrNull` for the first non-empty token with a NUL, and otherwise the quoted tokens joined by spaces |
| ShellQuote.QuoteMust | shellquote/shellquote.go:23-30 | panics with the `ErrNull` message exactly when some non-empty token holds a NUL, and otherwise returns the joined quoted tokens |
| ShellQuoteProps.EscapeRunsNoQuote | shellquote/shellquote.go:63-77 | a token without quotes passes through the run rewriting unchanged |
| ShellQuoteProps.EscapeRunsAppend | shellquote/shellquote.go:64-73 | rewriting runs of quotes is compositional where no run is cut in two |
| ShellQuoteProps.BlocksOfRun | shellquote/shellquote.go:64-66 | after replacing quotes, the leading copies of `'\''` are exactly the leading quotes |
| ShellQuoteProps.CollapseSingle | shellquote/shellquote.go:66-73 | a lone quote stays `'\''`: the expression needs two copies or more |
| ShellQuoteProps.CollapseRuns | shellquote/shellquote.go:64-73 | replace-then-collapse rewrites each run of k >= 2 quotes as `'"` + k quotes + `"'` and each lone quote as `'\''` |
| ShellQuoteProps.SafeIsLiteral | shellquote/shellquote.go:58 | every character the quoter leaves bare is one the shell takes as itself |
| ShellQuoteProps.TrimSuffixReads | shellquote/shellquote.go:76 | taking off a trailing `''` does not change the word the shell reads |
| ShellQuoteProps.TrimPrefixReads | shellquote/shellquote.go:77 | taking off a leading `''` does not change the word the shell reads |
| ShellQuoteProps.EscapeReads | shellquote/shellquote.go:63-80 | the escaped form of a non-empty token without NUL reads back as that token, as one word |
| ShellQuoteProps.TokenReads | shellquote/shellquote.go:39-82 | the quoted form of any token without NUL reads back as that token, as one word |
| ShellQuoteProps.JoinReads | shellquote/shellquote.go:85 | words joined by spaces read as those words |
| ShellQuoteProps.QuoteRoundTrip | shellquote/shellquote.go:36-86 | `Quote` fails exactly when a non-empty token holds a NUL, and otherwise the shell reads its result as exactly the tokens |
| ShellQuoteProps.EscapeFirst | shellquote/shellquote.go:75-77 | an escaped token starts with `'`, `\` or `"` according to its leading quotes, so it always differs from the token |
| ShellQuoteProps.UnchangedIff | shellquote/shellquote.go:48-82 | a non-empty token is left unchanged exactly when all its characters are safe and it holds no `=` or comes after a token without `=` |
| ShellQuoteProps.EqualRule | shellquote/shellquote.go:48-63 | a token with `=` is changed exactly when no earlier non-empty token lacks `=`, or it holds an unsafe character |
| ShellQuoteProps.EmptyToken | shellquote/shellquote.go:40-42 | the empty token becomes `''`, which reads as the empty word |
| ShellQuoteProps.NoLeadingAssignment | shellquote/shellquote.go:48-63 | no quoted token before the first token without `=` is a shell variable assignment |
| ShellQuoteProps.EscapeNoQuote | shellquote/shellquote.go:63-77 | a token without quotes is escaped by wrapping it in single quotes |
| ShellQuoteExamples.QuoteEmptyToken | shellquote/shellquote_test.go:24 | `[""]` quotes as `''` |
| ShellQuoteExamples.QuoteSafeToken | shellquote/shellquote_test.go:25 | `foo` stays `foo` |
| ShellQuoteExamples.QuoteSafeTokens | shellquote/shellquote_test.go:26 | `foo`, `bar` give `foo bar` |
| ShellQuoteExamples.ReservedWordsBare | shellquote/shellquote.go:58-63 | `!`, `ls` gives `! ls` and `if` gives `if`: words made of safe characters are left bare even when a shell reads them as syntax |
| ShellQuoteExamples.QuoteGlob | shellquote/shellquote_test.go:27 | `foo*` gives `'foo*'` |
| ShellQuoteExamples.QuoteBlank | shellquote/shellquote_test.go:28 | `foo bar` as one token gives `'foo bar'` |
| ShellQuoteExamples.QuoteInnerQuote | shellquote/shellquote_test.go:29 | `foo'bar` gives `'foo'\''bar'` |
| ShellQuoteExamples.QuoteLeadingQuote | shellquote/shellquote_test.go:30 | `'foo` gives `\''foo'` |
| ShellQuoteExamples.QuoteSecondToken | shellquote/shellquote_test.go:31 | `foo`, `bar*` gives `foo 'bar*'` |
| ShellQuoteExamples.QuoteQuotedTokens | shellquote/shellquote_test.go:32 | `foo'foo`, `bar`, `baz'` give `'foo'\''foo' bar 'baz'\'` |
| ShellQuoteExamples.QuoteBackslash | shellquote/shellquote_test.go:33 | `\` gives `'\'` |
| ShellQuoteExamples.QuoteLoneQuote | shellquote/shellquote_test.go:34 | a lone quote gives `\'` |
| ShellQuoteExamples.QuoteBackslashQuote | shellquote/shellquote_test.go:35 | `\'` gives `'\'\'` |
| ShellQuoteExamples.QuoteQuoteRun | shellquote/shellquote_test.go:36 | `a''b` gives `'a'"''"'b'`: the run of two quotes is collapsed |
| ShellQuoteExamples.QuoteSafeCharacters | shellquote/shellquote_test.go:37 | `azAZ09_!%+,-./:@^` stays as it is |
| ShellQuoteExamples.QuoteAssignment | shellquote/shellquote_test.go:38 | `foo=bar`, `command` gives `'foo=bar' command` |
| ShellQuoteExamples.QuoteAssignments | shellquote/shellquote_test.go:39 | `foo=bar`, `baz=quux`, `command` give `'foo=bar' 'baz=quux' command` |
| ShellQuoteExamples.QuoteNull | shellquote/shellquote_test.go:41-44 | a token holding NUL gives `ErrNull` |
| GoCmd.EnvEntry | cmd.go:165-168 | the entry is the key, `=`, then the value |
| GoCmd.EnvEntries | cmd.go:148-154 | one entry per pair of `WithEnv`, in order, with the value expanded |
| GoCmd.Defaults | cmd.go:61-69 | the fields `New` sets before the options: the command, a one-minute timeout, the current environment and the command's own buffers as sinks (`GoCmdProps.DefaultsOf`) |
| GoCmd.ApplyOption | cmd.go:102-161 | what each library option sets: the sink lists of `WithStdStreams`, `WithStdout` and `WithStderr`, the timeout, the working directory, the appended `WithEnv` entries, or an empty env; no option changes the command or `Dir`, and only the env options change the env |
| GoCmd.UsesDerivedTimeout | cmd.go:216-219 | a derived timeout is used when `Timeout > 0` and the caller's context has no deadline (`GoCmd.LaunchOf` and `GoCmdProps.RunResultCases` state its use) |
| GoCmd.RunResult | cmd.go:226-253 | the error for each outcome: the start error, none on completion, and on cancellation the kill error, else the timeout error, else the context's error; a timeout error is returned only with a derived timeout and carries `Timeout`, and the context's error only without one |
| GoCmd.ExitCodeOf | cmd.go:262-269 | `getExitCode`: the exit code stays, or becomes the status of an exit error that carries a wait status |
| GoCmd.ResultsAfter | cmd.go:226-253 | the run fields after an outcome: a run that did not start changes nothing, any other sets `Executed` and appends what the process wrote; `Executed` is never cleared and the buffers only grow |
| GoCmd.CheckExecuted | cmd.go:194-200 | no panic exactly when the command was executed; otherwise the message names the property |
| GoCmd.LaunchOf | cmd.go:203-224 | the process gets the command, the sinks and `WorkingDir`; it gets the env field when that is non-empty, and otherwise (a nil `Env`) the environment of the current process; it gets a derived timeout exactly when `Timeout > 0` and the context has no deadline, and that timeout is `Timeout` |
| GoCmd.Cmd.constructor | cmd.go:61-76 | `New`: the defaults, then the options in the order given; no run fields are set |
| GoCmd.Cmd.Apply | cmd.go:102-161 | an option changes the configuration as `ApplyOption` says and leaves the run fields alone |
| GoCmd.Cmd.AddEnvs | cmd.go:148-154 | the entries of the pairs are appended to the environment; nothing else changes |
| GoCmd.Cmd.AddEnv | cmd.go:165-168 | one entry `key=expanded value` is appended to the environment; nothing else changes |
| GoCmd.Cmd.Stdout | cmd.go:171-174 | the stdout buffer once executed, and otherwise a panic with the not-executed message |
| GoCmd.Cmd.Stderr | cmd.go:177-180 | the stderr buffer once executed, and otherwise a panic with the not-executed message |
| GoCmd.Cmd.Combined | cmd.go:183-186 | the combined buffer once executed, and otherwise a panic with the not-executed message |
| GoCmd.Cmd.ExitCode | cmd.go:189-192 | the exit code once executed, and otherwise a panic with the not-executed message |
| GoCmd.Cmd.RunContext | cmd.go:203-254 | the configuration is unchanged; the error and the new run fields are those of the outcome of the process launched with `LaunchOf`, given the current process's environment |
| GoCmd.Cmd.Run | cmd.go:258-260 | `RunContext` with the background context |
| GoCmd.Cmd.GetExitCode | cmd.go:262-269 | the exit code becomes the wait status when the error is an exit error that has one, and is left unchanged otherwise |
| GoCmdProps.ApplyAllAppend | cmd.go:71-73 | applying `a + b` is applying `a` and then `b` |
| GoCmdProps.Untouched | cmd.go:102-161 | no option of the library changes the command or `Dir`, and a field that no option sets keeps its value |
| GoCmdProps.LastTimeoutWins | cmd.go:134-138 | the last `WithTimeout` decides the timeout |
| GoCmdProps.LastWorkingDirWins | cmd.go:141-145 | the last `WithWorkingDir` decides the working directory |
| GoCmdProps.LastStdoutWins | cmd.go:110-117 | the last `WithStdout` decides stdout: the command's own buffers followed by its writers |
| GoCmdProps.LastStderrWins | cmd.go:120-127 | the last `WithStderr` decides stderr in the same way |
| GoCmdProps.EnvKept | cmd.go:148-168 | without `WithoutEnv` the environment keeps its entries and gains the added ones, in order |
| GoCmdProps.EnvAfterClear | cmd.go:157-161 | after the last `WithoutEnv` the env field holds exactly the entries added later |
| GoCmdProps.LaunchAfterClear | cmd.go:157-161 | after the last `WithoutEnv` the process gets exactly the entries added later, or, when none were added, the whole environment of the current process |
| GoCmdProps.ClearInherits | cmd.go:157-161 | with `WithoutEnv` and nothing added, the process gets the whole environment of the current process |
| GoCmdProps.IntendedLaunchOf | cmd.go:203-224 | the launch with `WithoutEnv` corrected to an empty, non-nil slice: the process gets the env field itself, and every other field as `LaunchOf` gives it |
| GoCmdProps.IntendedClearDropsEnviron | cmd.go:157-161 | with the corrected `WithoutEnv`, the process gets exactly the entries added after the last `WithoutEnv`, and none when none were added |
| GoCmdProps.OwnBuffers | cmd.go:66-127 | whatever library options are given, stdout includes the stdout and combined buffers, and stderr includes the stderr and combined buffers |
| GoCmdProps.RunResultCases | cmd.go:226-253 | no error exactly when the process completed; a start error, a kill error, the timeout error exactly when the derived timeout is used, or else the context's error |
| GoCmdProps.ExecutedRule | cmd.go:226-231 | `Executed` is set by every run that started and only by those; a failed start changes no run field |
| GoCmdProps.ExitStatusRule | cmd.go:250-269 | a completed run returns no error; the exit code is the wait status when there is one and is unchanged otherwise |
| GoCmdProps.DirIgnored | cmd.go:210-214 | `Dir` plays no part in what is launched: the directory is `WorkingDir` |
| GoCmdProps.DefaultsOf | cmd.go:61-69 | with no options: a one-minute timeout, the inherited environment, and the command's own buffers as sinks |
| GoCmdProps.ExecuteExample | cmd_test.go:22-30 | a run of `echo hello` returns no error, sets `Executed`, and `Stdout` is "hello\n" |
| GoCmdProps.ExitCodeExample | cmd_test.go:32-39 | `exit 120` is not an error, and `ExitCode` is 120 |
| GoCmdProps.StdoutMessage | cmd.go:194-200 | the panic message for `Stdout` |
| GoCmdProps.NotExecutedExample | cmd_test.go:54-65 | reading `Stdout` before a run panics with that message |
| GoCmdProps.AddEnvExample | cmd_test.go:67-71 | `WithoutEnv`, then `AddEnv("key", "value")`, leaves exactly `key=value` |
| GoCmdProps.InvalidDirExample | cmd_linux_test.go:83-88 | an invalid working directory reaches the process, and the start error is returned without `Executed` |
| GoCmdProps.TimeoutExample | cmd_linux_test.go:135-150 | a one-second timeout that expires gives the timeout error; with a context deadline, the context's error is returned and no derived timeout is used |
| GoCmdProps.CustomStdoutExample | cmd_linux_test.go:106-126 | an extra writer for stdout joins the command's own buffers for that stream only |

## Findings

| source | as written | input that shows it | evidently intended | confidence | as-written member | corrected member |
|---|---|---|---|---|---|---|
| cmd.go:157-161 | `WithoutEnv` sets the env field to nil, which `os/exec` reads as "inherit the current environment" | `New(cmd, WithoutEnv())` run from a process whose environment is `HOME=/root` starts the command with `HOME=/root` | set an empty, non-nil slice, so the command starts with no variables | medium; not executed | GoCmdProps.ClearInherits | GoCmdProps.IntendedClearDropsEnviron |
| linestream/stream.go:89 | tests `p[newlineOffset-1]`, an offset within the line used as an index into `p` | `"ab\nc\r\n"` gives the lines `"ab"` and `"c\r"`; `"a\r\nbc\n"` gives `"a"` and `"b"` | test `p[firstCharPos+newlineOffset-1]`, the byte right before the newline | high; not executed | LinestreamProps.CarriageReturnKept | LinestreamProps.IntendedLineEndDropsCR |

`Write` keeps the code as written, because the model follows the code. The
corrected line end `IntendedLineEnd` is proved to drop exactly a carriage
return that stands right before the newline. It agrees with the code on the
first line of every write (`LinestreamProps.IntendedOnFirstLine`). This is
why the CR test of `stream_test.go:146-179` passes: in `"foo\r\nbar\r\n"`
the byte the second line tests happens to be the first line's carriage
return.

`RunContext` likewise keeps `WithoutEnv` as written. The corrected launch
`GoCmdProps.IntendedLaunchOf` passes the env field on as it is, and with it
the command starts with exactly the entries added after the last
`WithoutEnv` (`GoCmdProps.IntendedClearDropsEnviron`).

## Left out

- `WithBaseCommand` (`cmd.go:88-93`) and the `SysProcAttr`/user settings of `cmd_linux.go`, `cmd_windows.go` and `cmd_others.go`: they configure an `exec.Cmd` from outside, which has no meaning without an operating system.
- `cmd/gocmd/main.go`: the command-line front end is not part of this model.
- GoCmd.CmdOption: only the library's own option functions are modelled. `New` accepts any `func(*Cmd)`, and a caller's closure (such as the writer-setting option of `cmd_test.go:115-131`) can set any field, including `Command`, `Dir` and the output writers; such options are not modelled.
- `New` builds the `exec.Cmd`, command line included, before the options run (`cmd.go:67`). So an assignment to `Command` after `New` has no effect on what runs, while `LaunchOf` reads the current field; the model has no operation that assigns it.
- `RunContext` reuses the `exec.Cmd` that `New` built, so a second run fails at `Start` ("exec: already started"). The model leaves that to the `process` parameter, which may return any outcome.
- What `os/exec` itself does to the environment it is given (dropping duplicate keys, setting `PWD` when `Dir` is set and `Env` is nil) is part of the process.
- The process and the `select` race in `RunContext` (`cmd.go:233-253`), including `syscall.Kill`: the process is a parameter `Process -> Outcome`. So which of "done", "context done" and "kill failed" wins is part of the outcome, not modelled as concurrency.
- `os.Environ` and `os.ExpandEnv`: they are parameters (`environ`, `expand`), because they read the process's own environment.
- `WithEnv` takes a Go map, whose iteration order is unspecified. The model takes the pairs as a sequence and keeps their order.
- ShellQuoteProps.QuoteRoundTrip: the reader it is stated against splits a line into words and gives them no meaning. A shell also takes `!`, and reserved words such as `if`, `while` or `case`, as syntax when they stand first; `Quote` leaves these bare because all their characters are safe (`ShellQuoteExamples.ReservedWordsBare`), and the round trip does not cover that.
- The contents of the output buffers and how `io.MultiWriter` interleaves the two streams: the sinks are named values, and the buffers after a run come with the `Outcome`.
- `time.Duration` is an unbounded integer of nanoseconds, so its int64 overflow is not modelled.
- Error text built with `fmt` is not reproduced. `ErrLineBufferOverflow.Error()` is modelled only by the number it reports (`TooLongBy`), and the run errors are datatypes.
- The line callback and the channel it usually writes to: the lines emitted are a ghost sequence `emitted`, so a callback that blocks or panics is not modelled.
- Linestream.LineStream.SetLineBufferSize: requires `lastChar <= n`, and so `n >= 0`. In Go a negative `n` panics at once in `make` (`linestream/stream.go:139`), and a size below the carried bytes makes the next `Write` panic on a slice bound; the model covers neither panic.
- `tmp` in `Quote` is a sequence value, not a Go slice; no aliasing is involved.
- The quoter works on `char` sequences, not on UTF-8 bytes. Go's `\w` class is ASCII-only, and the model follows that.
- The shell reader in `shellwords.dfy` covers only the language the quoter produces. It refuses expansions, operators, globs and NUL rather than interpreting them.
