/** How a POSIX shell splits one command line into words, for the part of the
    shell language the quoter produces: unquoted characters, single-quoted
    strings, double-quoted strings without expansions, backslash escapes
    and blanks between words. Anything else (an expansion, an operator, a
    glob character, an unterminated quote, a NUL) is refused, so a line this
    reader accepts splits into the same words for the shell. The reader
    gives no word a meaning: a shell also takes ! or a reserved word such
    as if, when it stands first, as syntax rather than as a command name. */
module ShellWords {
  import opened Wrappers

  /** Where the reader is: outside quotes, inside '…', inside "…", or just
      after an unquoted backslash. */
  datatype Mode = Unquoted | InSingle | InDouble | AfterBackslash

  /** What reading one character contributes: a character of the current
      word, a mark that a word has begun (a quote opens one even when it
      stays empty), or a blank that ends the current word. */
  datatype Tok = Ch(c: char) | Mark | Break

  datatype State = State(mode: Mode, toks: seq<Tok>)

  /** A character the shell takes as itself outside quotes: not a NUL, not
      blank, not an operator, quote, escape, expansion, glob or comment
      character. */
  predicate Literal(c: char)
  {
    c !in {'\0', ' ', '\t', '\n', '|', '&', ';', '<', '>', '(', ')', '$', '`', '\\',
           '"', '\'', '*', '?', '[', ']', '#', '~', '{', '}'}
  }

  /** Reading one character in a mode; None where this reader refuses. */
  function Step(m: Mode, c: char): Option<State>
  {
    if c == '\0' then None
    else
      match m
      case Unquoted =>
        if c == '\'' then Some(State(InSingle, [Mark]))
        else if c == '"' then Some(State(InDouble, [Mark]))
        else if c == '\\' then Some(State(AfterBackslash, []))
        else if c == ' ' then Some(State(Unquoted, [Break]))
        else if Literal(c) then Some(State(Unquoted, [Ch(c)]))
        else None
      case InSingle =>
        if c == '\'' then Some(State(Unquoted, [])) else Some(State(InSingle, [Ch(c)]))
      case InDouble =>
        if c == '"' then Some(State(Unquoted, []))
        else if c in {'$', '`', '\\'} then None
        else Some(State(InDouble, [Ch(c)]))
      case AfterBackslash =>
        if c == '\n' then None else Some(State(Unquoted, [Ch(c)]))
  }

  /** The tokens of st followed by those of a later reading o. */
  function After(st: State, o: Option<State>): Option<State>
  {
    if o.None? then None else Some(State(o.value.mode, st.toks + o.value.toks))
  }

  /** Reading s from mode m: the mode at the end and the tokens read. */
  function Run(m: Mode, s: string): Option<State>
    decreases |s|
  {
    if s == [] then Some(State(m, []))
    else
      var st := Step(m, s[0]);
      if st.None? then None else After(st.value, Run(st.value.mode, s[1..]))
  }

  /** Continuing a reading o with the characters s. */
  function Then(o: Option<State>, s: string): Option<State>
  {
    if o.None? then None else After(o.value, Run(o.value.mode, s))
  }

  /** The characters of a run of tokens. */
  function Text(t: seq<Tok>): string
  {
    if t == [] then "" else TokText(t[0]) + Text(t[1..])
  }

  function TokText(k: Tok): string
  {
    if k.Ch? then [k.c] else ""
  }

  /** The words of a run of tokens, given the word being read (None when no
      word has begun). */
  function WordsFrom(t: seq<Tok>, cur: Option<string>): seq<string>
  {
    if t == [] then (if cur.Some? then [cur.value] else [])
    else
      if t[0] == Break then (if cur.Some? then [cur.value] else []) + WordsFrom(t[1..], None)
      else WordsFrom(t[1..], Some(Current(cur) + TokText(t[0])))
  }

  function Current(cur: Option<string>): string
  {
    if cur.Some? then cur.value else ""
  }

  /** The words of one command line, or None when the line ends inside a
      quote or after a backslash or holds something this reader refuses. */
  function Read(s: string): (r: Option<seq<string>>)
  {
    var o := Run(Unquoted, s);
    if o.Some? && o.value.mode == Unquoted then Some(WordsFrom(o.value.toks, None)) else None
  }

  /** A word the shell takes as a variable assignment when it comes before
      the command name: a name, then '=' (section 2.9.1 of the POSIX Shell
      Command Language). */
  predicate IsAssignment(w: string)
  {
    exists e | 0 < e < |w| :: w[e] == '=' && IsName(w[..e])
  }

  predicate IsName(s: string)
  {
    |s| > 0 && !('0' <= s[0] <= '9') &&
    forall i | 0 <= i < |s| :: ('a' <= s[i] <= 'z') || ('A' <= s[i] <= 'Z') || ('0' <= s[i] <= '9') || s[i] == '_'
  }

  /** No token of t ends a word. */
  predicate Unbroken(t: seq<Tok>)
  {
    forall i | 0 <= i < |t| :: t[i] != Break
  }

  /** Reading a + b is reading a and then going on with b. */
  lemma {:induction false} RunAppend(m: Mode, a: string, b: string)
    ensures Run(m, a + b) == Then(Run(m, a), b)
    decreases |a|
  {
    if a == [] {
      assert a + b == b;
      var o := Run(m, b);
      if o.Some? {
        assert [] + o.value.toks == o.value.toks;
      }
    } else {
      assert (a + b)[0] == a[0];
      assert (a + b)[1..] == a[1..] + b;
      var st := Step(m, a[0]);
      if st.Some? {
        RunAppend(st.value.mode, a[1..], b);
        var o := Run(st.value.mode, a[1..]);
        assert Run(m, a + b) == After(st.value, Then(o, b));
        assert Run(m, a) == After(st.value, o);
        if o.Some? {
          var o2 := Run(o.value.mode, b);
          if o2.Some? {
            assert st.value.toks + (o.value.toks + o2.value.toks) == (st.value.toks + o.value.toks) + o2.value.toks;
          }
        }
      }
    }
  }

  lemma {:induction false} TextAppend(a: seq<Tok>, b: seq<Tok>)
    ensures Text(a + b) == Text(a) + Text(b)
  {
    if a != [] {
      assert (a + b)[0] == a[0];
      assert (a + b)[1..] == a[1..] + b;
      TextAppend(a[1..], b);
    } else {
      assert a + b == b;
    }
  }

  lemma WordsStep(t: seq<Tok>, cur: Option<string>)
    requires t != [] && t[0] != Break
    ensures WordsFrom(t, cur) == WordsFrom(t[1..], Some(Current(cur) + TokText(t[0])))
  {
  }

  /** Tokens without a blank all go to the word being read. */
  lemma {:induction false} WordsUnbroken(g: seq<Tok>, rest: seq<Tok>, cur: Option<string>)
    requires Unbroken(g)
    ensures WordsFrom(g + rest, cur) == WordsFrom(rest, if g == [] then cur else Some(Current(cur) + Text(g)))
  {
    if g == [] {
      assert g + rest == rest;
    } else {
      var next := Some(Current(cur) + TokText(g[0]));
      assert Unbroken(g[1..]) by {
        forall i | 0 <= i < |g[1..]| ensures g[1..][i] != Break {
          assert g[1..][i] == g[i + 1];
        }
      }
      assert WordsFrom(g + rest, cur) == WordsFrom(g[1..] + rest, next) by {
        assert (g + rest)[0] == g[0] && g[0] != Break;
        assert (g + rest)[1..] == g[1..] + rest;
        WordsStep(g + rest, cur);
      }
      WordsUnbroken(g[1..], rest, next);
      assert Text(g) == TokText(g[0]) + Text(g[1..]);
      if g[1..] == [] {
        assert Current(cur) + Text(g) == Current(next) by {
          assert Text(g[1..]) == [];
          assert TokText(g[0]) + [] == TokText(g[0]);
        }
      } else {
        assert Current(next) + Text(g[1..]) == Current(cur) + Text(g);
      }
    }
  }

  /** An empty pair of single quotes read outside quotes begins a word and
      adds nothing to it; read in any other mode it does not end outside
      quotes. */
  lemma EmptyQuotes(m: Mode)
    ensures Run(Unquoted, "''") == Some(State(Unquoted, [Mark]))
    ensures Run(m, "''").Some? && Run(m, "''").value.mode == Unquoted ==> m == Unquoted
  {
    var q: string := "'";
    assert "''" == q + q;
    assert q[0] == '\'' && q[1..] == [];
    assert Run(Unquoted, q) == Some(State(InSingle, [Mark] + []));
    assert Run(InSingle, q) == Some(State(Unquoted, [] + []));
    assert Run(InDouble, q) == Some(State(InDouble, [Ch('\'')] + []));
    assert Run(AfterBackslash, q) == Some(State(Unquoted, [Ch('\'')] + []));
    RunAppend(m, q, q);
    RunAppend(Unquoted, q, q);
    assert [Mark] + ([] + []) == [Mark];
  }

  /** Going on with nothing changes nothing. */
  lemma ThenNil(o: Option<State>)
    ensures Then(o, []) == o
  {
    if o.Some? {
      assert o.value.toks + [] == o.value.toks;
    }
  }
}
