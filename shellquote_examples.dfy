/** The quoting examples of shellquote/shellquote_test.go, each proved of
    the model. Each example first settles the facts about its literal
    strings and then applies the general lemmas below. */
module ShellQuoteExamples {
  import opened Wrappers
  import opened ShellQuote
  import opened ShellQuoteProps

  /** Quote's result from the quoted form of each token. */
  lemma QuoteAll(t: seq<string>, ys: seq<string>)
    requires |ys| == |t|
    requires forall j | 0 <= j < |t| :: '\0' !in t[j]
    requires forall j | 0 <= j < |t| :: QuoteToken(t[j], SawNonEqual(t, j)) == ys[j]
    ensures QuoteSpec(t) == Success(Join(ys))
  {
    assert QuotedTokens(t) == ys;
  }

  /** The flag before the second and the third of three tokens. */
  lemma SawThree(x0: string, x1: string, x2: string)
    ensures !SawNonEqual([x0, x1, x2], 0)
    ensures SawNonEqual([x0, x1, x2], 1) == (x0 != "" && '=' !in x0)
    ensures SawNonEqual([x0, x1, x2], 2) == ((x0 != "" && '=' !in x0) || (x1 != "" && '=' !in x1))
  {
    var t := [x0, x1, x2];
    assert t[0] == x0 && t[1] == x1;
  }

  lemma JoinThree(y0: string, y1: string, y2: string)
    ensures Join([y0, y1, y2]) == y0 + " " + y1 + " " + y2
  {
    var parts := [y0, y1, y2];
    assert parts[1..] == [y1, y2] && parts[1..][1..] == [y2];
    assert Join([y1, y2]) == y1 + " " + y2;
  }

  /** Quote's result for one, two and three tokens. */
  lemma QuoteOne(x: string, y: string)
    requires '\0' !in x && QuoteToken(x, false) == y
    ensures QuoteSpec([x]) == Success(y)
  {
    assert QuotedTokens([x]) == [y];
  }

  lemma QuoteTwo(x0: string, x1: string, y0: string, y1: string, saw1: bool)
    requires '\0' !in x0 && '\0' !in x1
    requires saw1 == (x0 != "" && '=' !in x0)
    requires QuoteToken(x0, false) == y0 && QuoteToken(x1, saw1) == y1
    ensures QuoteSpec([x0, x1]) == Success(y0 + " " + y1)
  {
    var t := [x0, x1];
    assert SawNonEqual(t, 1) == saw1 by {
      assert t[0] == x0;
    }
    assert !SawNonEqual(t, 0);
    QuoteAll(t, [y0, y1]);
    assert [y0, y1][1..] == [y1];
  }

  lemma QuoteThree(x0: string, x1: string, x2: string, y0: string, y1: string, y2: string, saw1: bool, saw2: bool)
    requires '\0' !in x0 && '\0' !in x1 && '\0' !in x2
    requires saw1 == (x0 != "" && '=' !in x0)
    requires saw2 == (saw1 || (x1 != "" && '=' !in x1))
    requires QuoteToken(x0, false) == y0 && QuoteToken(x1, saw1) == y1 && QuoteToken(x2, saw2) == y2
    ensures QuoteSpec([x0, x1, x2]) == Success(y0 + " " + y1 + " " + y2)
  {
    SawThree(x0, x1, x2);
    QuoteAll([x0, x1, x2], [y0, y1, y2]);
    JoinThree(y0, y1, y2);
  }

  /** A token with an unsafe character at index i. */
  lemma Unsafe(x: string, i: int)
    requires 0 <= i < |x| && !IsSafe(x[i])
    ensures HasUnsafe(x)
  {
  }

  /** A token left bare. */
  lemma Bare(x: string, sawNonEqual: bool)
    requires x != "" && forall i | 0 <= i < |x| :: IsSafe(x[i])
    requires '=' !in x || sawNonEqual
    ensures QuoteToken(x, sawNonEqual) == x
  {
  }

  /** An escaped token without quotes is wrapped in single quotes. */
  lemma Wrapped(x: string, sawNonEqual: bool)
    requires x != "" && '\'' !in x && Escaped(x, sawNonEqual)
    ensures QuoteToken(x, sawNonEqual) == "'" + x + "'"
  {
    EscapeNoQuote(x);
  }

  /** The outer quotes around e, less a leading and a trailing ''. */
  function Trimmed(e: string): (r: string)
    requires |e| >= 2
  {
    if e[0] == '\'' && e[|e| - 1] == '\'' then e[1..|e| - 1]
    else if e[0] == '\'' then e[1..] + "'"
    else if e[|e| - 1] == '\'' then "'" + e[..|e| - 1]
    else "'" + e + "'"
  }

  lemma WrapTrim(e: string)
    requires |e| >= 2
    ensures TrimPrefix(TrimSuffix("'" + e + "'")) == Trimmed(e)
  {
    var w := "'" + e + "'";
    assert w[|w| - 2] == e[|e| - 1] && w[1] == e[0];
    if e[|e| - 1] == '\'' {
      var s := w[..|w| - 2];
      assert s == "'" + e[..|e| - 1];
      assert s[1] == e[0];
      if e[0] == '\'' {
        assert s[2..] == e[1..|e| - 1];
      }
    } else if e[0] == '\'' {
      assert w[2..] == e[1..] + "'";
    }
  }

  /** An escaped token from its run-by-run escaping e. */
  lemma EscapedAs(x: string, sawNonEqual: bool, e: string)
    requires x != "" && Escaped(x, sawNonEqual) && EscapeRuns(x) == e && |e| >= 2
    ensures QuoteToken(x, sawNonEqual) == Trimmed(e)
  {
    CollapseRuns(x);
    WrapTrim(e);
  }

  lemma EscapeRunsQuotes()
    ensures EscapeRuns("'") == Block
    ensures EscapeRuns("''") == Collapsed(2)
  {
    assert LeadingQuotes("'") == 1;
    assert LeadingQuotes("''") == 2;
    assert "''"[2..] == [];
  }

  // shellquote_test.go:24-39, in order

  lemma QuoteEmptyToken()
    ensures QuoteSpec([""]) == Success("''")
  {
    QuoteOne("", "''");
  }

  lemma QuoteSafeToken()
    ensures QuoteSpec(["foo"]) == Success("foo")
  {
    assert '\0' !in "foo" && '=' !in "foo";
    Bare("foo", false);
    QuoteOne("foo", "foo");
  }

  lemma QuoteSafeTokens()
    ensures QuoteSpec(["foo", "bar"]) == Success("foo bar")
  {
    assert '\0' !in "foo" && '=' !in "foo" && '\0' !in "bar";
    assert "foo" + " " + "bar" == "foo bar";
    Bare("foo", false);
    Bare("bar", true);
    QuoteTwo("foo", "bar", "foo", "bar", true);
  }

  /** Every character of ! and of a reserved word such as if is safe, so
      Quote leaves them bare; a shell reads them in command position as a
      pipeline negation and the start of a compound command. */
  lemma ReservedWordsBare()
    ensures QuoteSpec(["!", "ls"]) == Success("! ls")
    ensures QuoteSpec(["if"]) == Success("if")
  {
    assert '\0' !in "!" && '=' !in "!" && '\0' !in "ls";
    assert "!" + " " + "ls" == "! ls";
    Bare("!", false);
    Bare("ls", true);
    QuoteTwo("!", "ls", "!", "ls", true);
    assert '\0' !in "if" && '=' !in "if";
    Bare("if", false);
    QuoteOne("if", "if");
  }

  lemma QuoteGlob()
    ensures QuoteSpec(["foo*"]) == Success("'foo*'")
  {
    var x := "foo*";
    assert "'" + x + "'" == "'foo*'";
    assert '\0' !in x && '\'' !in x && !IsSafe(x[3]);
    Unsafe(x, 3);
    Wrapped(x, false);
    QuoteOne(x, "'foo*'");
  }

  lemma QuoteBlank()
    ensures QuoteSpec(["foo bar"]) == Success("'foo bar'")
  {
    var x := "foo bar";
    assert "'" + x + "'" == "'foo bar'";
    assert '\0' !in x && '\'' !in x && !IsSafe(x[3]);
    Unsafe(x, 3);
    Wrapped(x, false);
    QuoteOne(x, "'foo bar'");
  }

  lemma QuoteInnerQuote()
    ensures QuoteSpec(["foo'bar"]) == Success("'foo'\\''bar'")
  {
    var x := "foo'bar";
    var e := "foo'\\''bar";
    assert x == "foo" + ("'" + "bar") && e == "foo" + (Block + "bar");
    assert e[0] != '\'' && e[|e| - 1] != '\'' && "'" + e + "'" == "'foo'\\''bar'";
    assert '\0' !in x && !IsSafe(x[3]) && '\'' !in "foo" && '\'' !in "bar";
    EscapeRunsQuotes();
    EscapeRunsAppend("'", "bar");
    EscapeRunsAppend("foo", "'" + "bar");
    EscapeRunsNoQuote("foo");
    EscapeRunsNoQuote("bar");
    Unsafe(x, 3);
    EscapedAs(x, false, e);
    QuoteOne(x, "'foo'\\''bar'");
  }

  lemma QuoteLeadingQuote()
    ensures QuoteSpec(["'foo"]) == Success("\\''foo'")
  {
    var x := "'foo";
    var e := "'\\''foo";
    assert x == "'" + "foo" && e == Block + "foo";
    assert e[0] == '\'' && e[|e| - 1] != '\'' && e[1..] + "'" == "\\''foo'";
    assert '\0' !in x && !IsSafe(x[0]) && '\'' !in "foo";
    EscapeRunsQuotes();
    EscapeRunsAppend("'", "foo");
    EscapeRunsNoQuote("foo");
    Unsafe(x, 0);
    EscapedAs(x, false, e);
    QuoteOne(x, "\\''foo'");
  }

  lemma QuoteSecondToken()
    ensures QuoteSpec(["foo", "bar*"]) == Success("foo 'bar*'")
  {
    var x := "bar*";
    assert '\0' !in "foo" && '=' !in "foo" && '\0' !in x && '\'' !in x && !IsSafe(x[3]);
    assert "foo" + " " + ("'" + x + "'") == "foo 'bar*'";
    Bare("foo", false);
    Unsafe(x, 3);
    Wrapped(x, true);
    QuoteTwo("foo", x, "foo", "'" + x + "'", true);
  }

  /** A quote inside a token becomes a Block. */
  lemma InnerQuoteToken(saw: bool)
    ensures QuoteToken("foo'foo", saw) == "'foo'\\''foo'"
  {
    var x, e := "foo'foo", "foo'\\''foo";
    assert x == "foo" + ("'" + "foo") && e == "foo" + (Block + "foo");
    assert e[0] != '\'' && e[|e| - 1] != '\'' && "'" + e + "'" == "'foo'\\''foo'";
    assert !IsSafe(x[3]) && '\'' !in "foo";
    EscapeRunsQuotes();
    EscapeRunsAppend("'", "foo");
    EscapeRunsAppend("foo", "'" + "foo");
    EscapeRunsNoQuote("foo");
    Unsafe(x, 3);
    EscapedAs(x, saw, e);
  }

  /** A trailing quote becomes a Block whose last '' is trimmed. */
  lemma TrailingQuoteToken(saw: bool)
    ensures QuoteToken("baz'", saw) == "'baz'\\'"
  {
    var x, e := "baz'", "baz'\\''";
    assert x == "baz" + "'" && e == "baz" + Block;
    assert e[0] != '\'' && e[|e| - 1] == '\'' && "'" + e[..|e| - 1] == "'baz'\\'";
    assert !IsSafe(x[3]) && '\'' !in "baz";
    EscapeRunsQuotes();
    EscapeRunsAppend("baz", "'");
    EscapeRunsNoQuote("baz");
    Unsafe(x, 3);
    EscapedAs(x, saw, e);
  }

  lemma BarToken()
    ensures QuoteToken("bar", true) == "bar"
  {
    var x := "bar";
    assert forall i | 0 <= i < |x| :: IsSafe(x[i]);
    Bare(x, true);
  }

  lemma QuoteQuotedTokens()
    ensures QuoteSpec(["foo'foo", "bar", "baz'"]) == Success("'foo'\\''foo' bar 'baz'\\'")
  {
    var x0, x2 := "foo'foo", "baz'";
    var y0, y2 := "'foo'\\''foo'", "'baz'\\'";
    assert y0 + " " + "bar" + " " + y2 == "'foo'\\''foo' bar 'baz'\\'";
    assert '\0' !in x0 && '\0' !in "bar" && '\0' !in x2 && '=' !in x0 && '=' !in "bar";
    InnerQuoteToken(false);
    TrailingQuoteToken(true);
    BarToken();
    QuoteThree(x0, "bar", x2, y0, "bar", y2, true, true);
  }

  lemma QuoteBackslash()
    ensures QuoteSpec(["\\"]) == Success("'\\'")
  {
    var x := "\\";
    assert "'" + x + "'" == "'\\'";
    assert '\0' !in x && '\'' !in x && !IsSafe(x[0]);
    Unsafe(x, 0);
    Wrapped(x, false);
    QuoteOne(x, "'\\'");
  }

  lemma QuoteLoneQuote()
    ensures QuoteSpec(["'"]) == Success("\\'")
  {
    var x := "'";
    var e := Block;
    assert e[0] == '\'' && e[|e| - 1] == '\'' && e[1..|e| - 1] == "\\'";
    assert '\0' !in x && !IsSafe(x[0]);
    EscapeRunsQuotes();
    Unsafe(x, 0);
    EscapedAs(x, false, e);
    QuoteOne(x, "\\'");
  }

  lemma QuoteBackslashQuote()
    ensures QuoteSpec(["\\'"]) == Success("'\\'\\'")
  {
    var x := "\\'";
    var e := "\\'\\''";
    assert x == "\\" + "'" && e == "\\" + Block;
    assert e[0] != '\'' && e[|e| - 1] == '\'' && "'" + e[..|e| - 1] == "'\\'\\'";
    assert '\0' !in x && !IsSafe(x[0]) && '\'' !in "\\";
    EscapeRunsQuotes();
    EscapeRunsAppend("\\", "'");
    EscapeRunsNoQuote("\\");
    Unsafe(x, 0);
    EscapedAs(x, false, e);
    QuoteOne(x, "'\\'\\'");
  }

  lemma QuoteQuoteRun()
    ensures QuoteSpec(["a''b"]) == Success("'a'\"''\"'b'")
  {
    var x := "a''b";
    var e := "a'\"''\"'b";
    assert Collapsed(2) == "'\"''\"'";
    assert x == "a" + ("''" + "b") && e == "a" + (Collapsed(2) + "b");
    assert e[0] != '\'' && e[|e| - 1] != '\'' && "'" + e + "'" == "'a'\"''\"'b'";
    assert '\0' !in x && !IsSafe(x[1]) && '\'' !in "a" && '\'' !in "b";
    EscapeRunsQuotes();
    EscapeRunsAppend("''", "b");
    EscapeRunsAppend("a", "''" + "b");
    EscapeRunsNoQuote("a");
    EscapeRunsNoQuote("b");
    Unsafe(x, 1);
    EscapedAs(x, false, e);
    QuoteOne(x, "'a'\"''\"'b'");
  }

  lemma QuoteSafeCharacters()
    ensures QuoteSpec(["azAZ09_!%+,-./:@^"]) == Success("azAZ09_!%+,-./:@^")
  {
    var x := "azAZ09_!%+,-./:@^";
    assert '\0' !in x && '=' !in x;
    assert forall i | 0 <= i < |x| :: IsSafe(x[i]);
    Bare(x, false);
    QuoteOne(x, x);
  }

  lemma QuoteAssignment()
    ensures QuoteSpec(["foo=bar", "command"]) == Success("'foo=bar' command")
  {
    var x := "foo=bar";
    assert '=' in x by { assert x[3] == '='; }
    assert '\0' !in x && '\'' !in x && '\0' !in "command" && '=' !in "command";
    assert forall i | 0 <= i < |"command"| :: IsSafe("command"[i]);
    assert ("'" + x + "'") + " " + "command" == "'foo=bar' command";
    Bare("command", false);
    Wrapped(x, false);
    QuoteTwo(x, "command", "'" + x + "'", "command", false);
  }

  /** A token with '=' before any token without one is escaped. */
  lemma AssignmentToken(x: string)
    requires x == "foo=bar" || x == "baz=quux"
    ensures QuoteToken(x, false) == "'" + x + "'"
  {
    assert '=' in x by { assert x[3] == '='; }
    assert '\'' !in x;
    Wrapped(x, false);
  }

  lemma CommandToken(saw: bool)
    ensures QuoteToken("command", saw) == "command"
  {
    var x := "command";
    assert '=' !in x;
    assert forall i | 0 <= i < |x| :: IsSafe(x[i]);
    Bare(x, saw);
  }

  lemma QuoteAssignments()
    ensures QuoteSpec(["foo=bar", "baz=quux", "command"]) == Success("'foo=bar' 'baz=quux' command")
  {
    var x0, x1 := "foo=bar", "baz=quux";
    assert '\0' !in x0 && '=' in x0 && '\0' !in x1 && '=' in x1 && '\0' !in "command";
    assert "'" + x0 + "'" + " " + ("'" + x1 + "'") + " " + "command" == "'foo=bar' 'baz=quux' command";
    AssignmentToken(x0);
    AssignmentToken(x1);
    CommandToken(false);
    QuoteThree(x0, x1, "command", "'" + x0 + "'", "'" + x1 + "'", "command", false, false);
  }

  /** shellquote_test.go:41-44 */
  lemma QuoteNull()
    ensures QuoteSpec(["\0"]) == Failure(ErrNull)
  {
    assert ["\0"][0] != "" && '\0' in ["\0"][0];
  }
}
