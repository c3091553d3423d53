/** What the quoter promises: an independent statement of the escaping step,
    the rules that decide which tokens are escaped, and that a shell reads
    the quoted line back as the original tokens. */
module ShellQuoteProps {
  import opened Wrappers
  import opened ShellQuote
  import opened ShellWords

  // ---------------------------------------------------------------------
  // The escaping step, stated on the token instead of on the regular
  // expression's matches

  /** The number of quotes x starts with. */
  function LeadingQuotes(x: string): (k: nat)
    ensures k <= |x|
    ensures forall i | 0 <= i < k :: x[i] == '\''
    ensures k < |x| ==> x[k] != '\''
  {
    if x != [] && x[0] == '\'' then 1 + LeadingQuotes(x[1..]) else 0
  }

  /** The escaped text of x between the outer quotes: a single quote becomes
      Block, a run of k >= 2 quotes becomes '" then the k quotes then "',
      and any other character stays. */
  function EscapeRuns(x: string): (r: string)
    decreases |x|
  {
    if x == [] then []
    else if x[0] != '\'' then [x[0]] + EscapeRuns(x[1..])
    else
      var k := LeadingQuotes(x);
      (if k >= 2 then Collapsed(k) else Block) + EscapeRuns(x[k..])
  }

  /** A token without quotes is its own run-by-run escaping. */
  lemma {:induction false} EscapeRunsNoQuote(x: string)
    requires '\'' !in x
    ensures EscapeRuns(x) == x
  {
    if x != [] {
      assert '\'' !in x[1..] by {
        assert forall c | c in x[1..] :: c in x;
      }
      EscapeRunsNoQuote(x[1..]);
      assert x == [x[0]] + x[1..];
    }
  }

  /** Escaping runs is escaping the pieces, when no run of quotes is cut
      in two. */
  lemma {:induction false} EscapeRunsAppend(a: string, b: string)
    requires a == [] || b == [] || a[|a| - 1] != '\'' || b[0] != '\''
    ensures EscapeRuns(a + b) == EscapeRuns(a) + EscapeRuns(b)
    decreases |a|
  {
    if a == [] {
      assert a + b == b;
    } else {
      var k, h := HeadLen(a), HeadText(a);
      var rest := a[k..];
      assert EscapeRuns(a + b) == h + EscapeRuns(rest + b) by {
        HeadOfAppend(a, b);
        SliceAppend(a, b, k);
        EscapeRunsHead(a + b);
      }
      assert EscapeRuns(a) == h + EscapeRuns(rest) by {
        EscapeRunsHead(a);
      }
      assert EscapeRuns(rest + b) == EscapeRuns(rest) + EscapeRuns(b) by {
        if k < |a| {
          assert rest[|rest| - 1] == a[|a| - 1];
          EscapeRunsAppend(rest, b);
        } else {
          assert rest == [] && rest + b == b;
        }
      }
      Associative(h, EscapeRuns(rest), EscapeRuns(b));
    }
  }

  lemma SliceAppend(a: string, b: string, k: int)
    requires 0 <= k <= |a|
    ensures (a + b)[k..] == a[k..] + b
  {
  }

  lemma Associative(a: string, b: string, c: string)
    ensures a + (b + c) == (a + b) + c
  {
  }

  /** The length of the first piece EscapeRuns handles: one character, or
      the whole leading run of quotes. */
  function HeadLen(x: string): (k: nat)
    requires x != []
    ensures 0 < k <= |x|
  {
    if x[0] != '\'' then 1 else LeadingQuotes(x)
  }

  /** What EscapeRuns makes of that first piece. */
  function HeadText(x: string): string
    requires x != []
  {
    if x[0] != '\'' then [x[0]]
    else if LeadingQuotes(x) >= 2 then Collapsed(LeadingQuotes(x)) else Block
  }

  lemma EscapeRunsHead(x: string)
    requires x != []
    ensures EscapeRuns(x) == HeadText(x) + EscapeRuns(x[HeadLen(x)..])
  {
  }

  lemma HeadOfAppend(a: string, b: string)
    requires a != []
    requires b == [] || a[|a| - 1] != '\'' || b[0] != '\''
    ensures HeadLen(a + b) == HeadLen(a) && HeadText(a + b) == HeadText(a)
  {
    assert (a + b)[0] == a[0];
    if a[0] == '\'' {
      QuotesOfAppend(a, b);
    }
  }

  lemma {:induction false} QuotesOfAppend(a: string, b: string)
    requires a != [] && a[0] == '\''
    requires a[|a| - 1] != '\'' || b == [] || b[0] != '\''
    ensures LeadingQuotes(a + b) == LeadingQuotes(a)
  {
    if |a| > 1 && a[1] == '\'' {
      assert (a + b)[1..] == a[1..] + b;
      QuotesOfAppend(a[1..], b);
    } else {
      assert (a + b)[1..] == a[1..] + b;
      if |a| == 1 {
        assert a[1..] + b == b;
      }
    }
  }

  /** After replacing the quotes, the copies of Block at the start are
      exactly the quotes at the start. */
  lemma {:induction false} BlocksOfRun(x: string)
    ensures Blocks(ReplaceQuotes(x)) == LeadingQuotes(x)
    ensures ReplaceQuotes(x)[4 * LeadingQuotes(x)..] == ReplaceQuotes(x[LeadingQuotes(x)..])
  {
    if x != [] && x[0] == '\'' {
      var y := ReplaceQuotes(x);
      var z := ReplaceQuotes(x[1..]);
      assert y == Block + z;
      assert y[..4] == Block && y[4..] == z;
      BlocksOfRun(x[1..]);
      assert x[1..][LeadingQuotes(x[1..])..] == x[LeadingQuotes(x)..];
    } else if x != [] {
      assert ReplaceQuotes(x)[0] == x[0];
    }
  }

  /** A string that differs from Block at one of its first four places
      does not start with a copy of Block. */
  lemma NoBlockAt(y: string, i: int)
    requires 0 <= i < 4 && i < |y| && y[i] != Block[i]
    ensures Blocks(y) == 0
  {
    if |y| >= 4 {
      assert y[..4][i] == y[i];
    }
  }

  /** A lone quote is followed by something that cannot complete a Block. */
  lemma NoBlockAfterQuote(z: string)
    requires z == [] || z[0] != '\''
    ensures Blocks("'" + ReplaceQuotes(z)) == 0
  {
    if |z| > 0 {
      var w := ReplaceQuotes(z[1..]);
      assert ReplaceQuotes(z) == [z[0]] + w;
      if z[0] != '\\' {
        NoBlockAfterChar(z[0], w);
      } else if z[1..] != [] {
        NoBlockAfterBackslash(z[1..]);
      }
    }
  }

  lemma NoBlockAfterChar(c: char, w: string)
    requires c != '\\'
    ensures Blocks("'" + ([c] + w)) == 0
  {
    var y := "'" + ([c] + w);
    if |y| >= 4 {
      assert y[1] == c;
      NoBlockAt(y, 1);
    }
  }

  lemma NoBlockAfterBackslash(v: string)
    requires v != []
    ensures Blocks("'" + (['\\'] + ReplaceQuotes(v))) == 0
  {
    var w := ReplaceQuotes(v);
    var y := "'" + (['\\'] + w);
    assert y[2..] == w;
    if |y| >= 4 {
      if v[0] == '\'' {
        assert w == Block + ReplaceQuotes(v[1..]);
        assert y[3] == w[1] == '\\';
        NoBlockAt(y, 3);
      } else {
        assert w == [v[0]] + ReplaceQuotes(v[1..]);
        assert y[2] == v[0];
        NoBlockAt(y, 2);
      }
    }
  }

  /** Where fewer than two copies of Block start, Collapse keeps the first
      character and goes on. */
  lemma CollapseKeep(y: string)
    requires y != [] && Blocks(y) < 2
    ensures Collapse(y) == [y[0]] + Collapse(y[1..])
  {
  }

  /** Four characters ' \ ' ' followed by no copy of Block, with no copy
      of Block starting at the last of them either, are kept as they are. */
  lemma CollapseFour(y: string)
    requires |y| >= 4 && y[0] == '\'' && y[1] == '\\' && y[2] == '\'' && y[3] == '\''
    requires Blocks(y[4..]) == 0 && Blocks(y[3..]) == 0
    ensures Collapse(y) == y[..4] + Collapse(y[4..])
  {
    var c := Collapse(y[4..]);
    assert Block[0] == '\'' && Block[1] == '\\';
    assert Collapse(y[3..]) == [y[3]] + c by {
      assert y[3..][1..] == y[4..];
      CollapseKeep(y[3..]);
    }
    assert Collapse(y[2..]) == [y[2]] + Collapse(y[3..]) by {
      assert y[2..][1..] == y[3..];
      NoBlockAt(y[2..], 1);
      CollapseKeep(y[2..]);
    }
    assert Collapse(y[1..]) == [y[1]] + Collapse(y[2..]) by {
      assert y[1..][1..] == y[2..];
      NoBlockAt(y[1..], 0);
      CollapseKeep(y[1..]);
    }
    assert Collapse(y) == [y[0]] + Collapse(y[1..]) by {
      CollapseKeep(y);
    }
    ConsFour(y, Collapse(y), Collapse(y[1..]), Collapse(y[2..]), Collapse(y[3..]), c);
  }

  lemma ConsFour(y: string, c0: string, c1: string, c2: string, c3: string, c: string)
    requires |y| >= 4
    requires c0 == [y[0]] + c1 && c1 == [y[1]] + c2 && c2 == [y[2]] + c3 && c3 == [y[3]] + c
    ensures c0 == y[..4] + c
  {
    assert y[..4] == [y[0], y[1], y[2], y[3]];
  }

  /** A single quote is left as Block by the collapsing step. */
  lemma CollapseSingle(z: string)
    requires z == [] || z[0] != '\''
    ensures Collapse(Block + ReplaceQuotes(z)) == Block + Collapse(ReplaceQuotes(z))
  {
    var r := ReplaceQuotes(z);
    var y := Block + r;
    assert y[..4] == Block && y[4..] == r && y[3..] == "'" + r;
    assert Blocks(r) == 0 by {
      if r != [] {
        assert r[0] == z[0];
        NoBlockAt(r, 0);
      }
    }
    NoBlockAfterQuote(z);
    CollapseFour(y);
  }

  /** Where two or more copies of Block start, Collapse replaces them all. */
  lemma CollapseMatch(y: string)
    requires Blocks(y) >= 2
    ensures Collapse(y) == Collapsed(Blocks(y)) + Collapse(y[4 * Blocks(y)..])
  {
  }

  /** The collapsing expression sees exactly the runs of quotes of the
      token: replacing and collapsing is the run-by-run escaping. */
  lemma {:induction false} CollapseRuns(x: string)
    ensures Collapse(ReplaceQuotes(x)) == EscapeRuns(x)
    decreases |x|
  {
    if x != [] {
      var y, k := ReplaceQuotes(x), LeadingQuotes(x);
      if x[0] != '\'' {
        assert Collapse(y) == [x[0]] + Collapse(ReplaceQuotes(x[1..])) by {
          assert y == [x[0]] + ReplaceQuotes(x[1..]);
          assert y[0] == x[0] && y[1..] == ReplaceQuotes(x[1..]);
          NoBlockAt(y, 0);
          CollapseKeep(y);
        }
        CollapseRuns(x[1..]);
        assert EscapeRuns(x) == [x[0]] + EscapeRuns(x[1..]);
      } else if k >= 2 {
        assert Collapse(y) == Collapsed(k) + Collapse(ReplaceQuotes(x[k..])) by {
          BlocksOfRun(x);
          CollapseMatch(y);
        }
        CollapseRuns(x[k..]);
        assert EscapeRuns(x) == Collapsed(k) + EscapeRuns(x[k..]);
      } else {
        assert Collapse(y) == Block + Collapse(ReplaceQuotes(x[1..])) by {
          assert y == Block + ReplaceQuotes(x[1..]);
          assert k == 1;
          CollapseSingle(x[1..]);
        }
        CollapseRuns(x[1..]);
        assert EscapeRuns(x) == Block + EscapeRuns(x[1..]);
      }
    }
  }

  // ---------------------------------------------------------------------
  // Reading the quoted forms back

  /** w, read on its own, is one word whose text is x. */
  predicate ReadsAs(w: string, x: string)
  {
    var o := Run(Unquoted, w);
    o.Some? && o.value.mode == Unquoted && o.value.toks != [] &&
    Unbroken(o.value.toks) && Text(o.value.toks) == x
  }

  lemma UnbrokenAppend(a: seq<Tok>, b: seq<Tok>)
    requires Unbroken(a) && Unbroken(b)
    ensures Unbroken(a + b)
  {
    forall i | 0 <= i < |a + b| ensures (a + b)[i] != Break {
      if i < |a| {
        assert (a + b)[i] == a[i];
      } else {
        assert (a + b)[i] == b[i - |a|];
      }
    }
  }

  /** Every character the quoter leaves bare is one the shell takes as
      itself. */
  lemma SafeIsLiteral(c: char)
    requires IsSafe(c)
    ensures Literal(c)
  {
  }

  /** The tokens a run of literal characters reads as. */
  function Chars(x: string): (t: seq<Tok>)
    ensures |t| == |x|
  {
    seq(|x|, i requires 0 <= i < |x| => Ch(x[i]))
  }

  lemma {:induction false} ReadLiteral(m: Mode, x: string)
    requires m == Unquoted || m == InDouble
    requires forall i | 0 <= i < |x| :: Literal(x[i]) || (m == InDouble && x[i] == '\'')
    ensures Run(m, x) == Some(State(m, Chars(x)))
    ensures Text(Chars(x)) == x && Unbroken(Chars(x))
  {
    if x != [] {
      var c, t := Chars(x), Chars(x[1..]);
      assert c == [Ch(x[0])] + t;
      ReadLiteral(m, x[1..]);
      assert Step(m, x[0]) == Some(State(m, [Ch(x[0])]));
    }
    TextChars(x);
  }

  /** The characters of Chars(x) are x, and none of its tokens is a blank. */
  lemma {:induction false} TextChars(x: string)
    ensures Text(Chars(x)) == x && Unbroken(Chars(x))
  {
    if x != [] {
      var c, t := Chars(x), Chars(x[1..]);
      assert c[0] == Ch(x[0]) && c[1..] == t;
      TextChars(x[1..]);
      SplitAt(x, 1);
    }
  }

  lemma ReadBlock()
    ensures Run(InSingle, Block) == Some(State(InSingle, [Ch('\''), Mark]))
  {
    var b := Block;
    assert b[1..] == "\\''" && b[2..] == "''" && b[3..] == "'" && b[4..] == [];
    assert b[1..][1..] == b[2..] && b[2..][1..] == b[3..] && b[3..][1..] == b[4..];
    var t := [Ch('\''), Mark];
    assert [Mark] + [] == [Mark] && [Ch('\'')] + [Mark] == t && [] + t == t;
    assert Run(Unquoted, b[3..]) == Some(State(InSingle, [Mark]));
    assert Run(AfterBackslash, b[2..]) == Some(State(InSingle, t));
    assert Run(Unquoted, b[1..]) == Some(State(InSingle, t));
  }

  /** A reading from m to m' followed by one from m' to m'' reads the
      concatenation from m to m''. */
  lemma RunConcat(m: Mode, m': Mode, m'': Mode, a: string, b: string, ta: seq<Tok>, tb: seq<Tok>)
    requires Run(m, a) == Some(State(m', ta)) && Run(m', b) == Some(State(m'', tb))
    ensures Run(m, a + b) == Some(State(m'', ta + tb))
  {
    RunAppend(m, a, b);
  }

  /** '" closes the single-quoted string and opens a double-quoted one; "'
      does the reverse. */
  lemma SwitchQuotes()
    ensures Run(InSingle, "'\"") == Some(State(InDouble, [Mark]))
    ensures Run(InDouble, "\"'") == Some(State(InSingle, [Mark]))
  {
    var a := "'\"";
    var b := "\"'";
    assert a[1..] == "\"" && a[1..][1..] == [];
    assert b[1..] == "'" && b[1..][1..] == [];
    assert Run(InSingle, a) == Some(State(InDouble, [] + ([Mark] + [])));
    assert Run(InDouble, b) == Some(State(InSingle, [] + ([Mark] + [])));
    assert [] + ([Mark] + []) == [Mark];
  }

  lemma ReadCollapsed(k: nat) returns (t: seq<Tok>)
    ensures Run(InSingle, Collapsed(k)) == Some(State(InSingle, t))
    ensures Text(t) == Quotes(k) && Unbroken(t)
  {
    var q := Quotes(k);
    var c := Chars(q);
    t := [Mark] + c + [Mark];
    ReadLiteral(InDouble, q);
    SwitchQuotes();
    RunConcat(InSingle, InDouble, InDouble, "'\"", q, [Mark], c);
    RunConcat(InSingle, InDouble, InSingle, "'\"" + q, "\"'", [Mark] + c, [Mark]);
    assert Text([Mark]) == [] && Unbroken([Mark]);
    TextAppend([Mark], c);
    TextAppend([Mark] + c, [Mark]);
    UnbrokenAppend([Mark], c);
    UnbrokenAppend([Mark] + c, [Mark]);
  }

  /** Inside single quotes, the first piece EscapeRuns writes reads as the
      characters it stands for. */
  lemma ReadHead(x: string) returns (t: seq<Tok>)
    requires x != [] && x[0] != '\0'
    ensures Run(InSingle, HeadText(x)) == Some(State(InSingle, t))
    ensures Text(t) == x[..HeadLen(x)] && Unbroken(t)
  {
    var k := HeadLen(x);
    if x[0] != '\'' {
      assert x[..k] == [x[0]] && HeadText(x)[1..] == [];
      t := [Ch(x[0])];
      assert t[1..] == [] && Text(t) == [x[0]] + Text([]);
      assert Run(InSingle, HeadText(x)) == Some(State(InSingle, t + [])) && t + [] == t;
    } else if k >= 2 {
      t := ReadCollapsed(k);
      assert x[..k] == Quotes(k);
    } else {
      ReadBlock();
      t := [Ch('\''), Mark];
      assert x[..k] == "'";
      assert t[1..] == [Mark] && Text(t[1..]) == [];
      assert Unbroken(t) by {
        assert t[0] != Break && t[1] != Break;
      }
    }
  }

  /** Inside single quotes, the run-by-run escaping of x reads as x and
      leaves the reader inside single quotes. */
  lemma {:induction false} ReadRuns(x: string) returns (t: seq<Tok>)
    requires '\0' !in x
    ensures Run(InSingle, EscapeRuns(x)) == Some(State(InSingle, t))
    ensures Text(t) == x && Unbroken(t)
    decreases |x|
  {
    if x == [] {
      t := [];
    } else {
      var k := HeadLen(x);
      var tp := ReadHead(x);
      assert '\0' !in x[k..] by {
        assert forall c | c in x[k..] :: c in x;
      }
      var tr := ReadRuns(x[k..]);
      t := tp + tr;
      ReadRunsStep(x, tp, tr);
    }
  }

  lemma SplitAt(x: string, k: int)
    requires 0 <= k <= |x|
    ensures x[..k] + x[k..] == x
  {
  }

  /** The step of ReadRuns: the first piece, then the rest. */
  lemma ReadRunsStep(x: string, tp: seq<Tok>, tr: seq<Tok>)
    requires x != []
    requires Run(InSingle, HeadText(x)) == Some(State(InSingle, tp))
    requires Text(tp) == x[..HeadLen(x)] && Unbroken(tp)
    requires Run(InSingle, EscapeRuns(x[HeadLen(x)..])) == Some(State(InSingle, tr))
    requires Text(tr) == x[HeadLen(x)..] && Unbroken(tr)
    ensures Run(InSingle, EscapeRuns(x)) == Some(State(InSingle, tp + tr))
    ensures Text(tp + tr) == x && Unbroken(tp + tr)
  {
    var k := HeadLen(x);
    EscapeRunsHead(x);
    RunConcat(InSingle, InSingle, InSingle, HeadText(x), EscapeRuns(x[k..]), tp, tr);
    TextAppend(tp, tr);
    SplitAt(x, k);
    UnbrokenAppend(tp, tr);
  }

  /** Taking off a trailing '' takes off only the mark of an empty word
      part. */
  lemma TrimSuffixReads(w: string, x: string)
    requires x != [] && ReadsAs(w, x)
    ensures ReadsAs(TrimSuffix(w), x)
  {
    var s := TrimSuffix(w);
    if w != s {
      var T := Run(Unquoted, w).value.toks;
      RunAppend(Unquoted, s, "''");
      var o := Run(Unquoted, s);
      assert o.Some?;
      EmptyQuotes(o.value.mode);
      assert o.value.mode == Unquoted;
      assert T == o.value.toks + [Mark];
      TextAppend(o.value.toks, [Mark]);
      assert Text(o.value.toks) == x;
      assert Unbroken(o.value.toks) by {
        forall i | 0 <= i < |o.value.toks| ensures o.value.toks[i] != Break {
          assert o.value.toks[i] == T[i];
        }
      }
    }
  }

  /** Taking off a leading '' takes off only the mark of an empty word
      part. */
  lemma TrimPrefixReads(w: string, x: string)
    requires x != [] && ReadsAs(w, x)
    ensures ReadsAs(TrimPrefix(w), x)
  {
    var s := TrimPrefix(w);
    if w != s {
      var T := Run(Unquoted, w).value.toks;
      EmptyQuotes(Unquoted);
      RunAppend(Unquoted, "''", s);
      var o := Run(Unquoted, s);
      assert o.Some? && o.value.mode == Unquoted;
      assert T == [Mark] + o.value.toks;
      TextAppend([Mark], o.value.toks);
      assert Text(o.value.toks) == x;
      assert Unbroken(o.value.toks) by {
        forall i | 0 <= i < |o.value.toks| ensures o.value.toks[i] != Break {
          assert o.value.toks[i] == T[i + 1];
        }
      }
    }
  }

  /** The escaped form of a token without NUL reads back as the token. */
  lemma EscapeReads(x: string)
    requires x != [] && '\0' !in x
    ensures ReadsAs(Escape(x), x)
  {
    CollapseRuns(x);
    var e := EscapeRuns(x);
    var te := ReadRuns(x);
    var q: string := "'";
    assert q[1..] == [];
    assert Run(Unquoted, q) == Some(State(InSingle, [Mark] + []));
    assert Run(InSingle, q) == Some(State(Unquoted, [] + []));
    RunAppend(Unquoted, q, e);
    RunAppend(Unquoted, q + e, q);
    var T := [Mark] + te;
    assert ([Mark] + []) + te == T && T + ([] + []) == T;
    assert Run(Unquoted, q + e + q) == Some(State(Unquoted, T));
    TextAppend([Mark], te);
    UnbrokenAppend([Mark], te);
    assert ReadsAs(q + e + q, x);
    TrimSuffixReads(q + e + q, x);
    TrimPrefixReads(TrimSuffix(q + e + q), x);
  }

  /** The quoted form of any token without NUL reads back as the token. */
  lemma TokenReads(x: string, sawNonEqual: bool)
    requires '\0' !in x
    ensures ReadsAs(QuoteToken(x, sawNonEqual), x)
  {
    if x == "" {
      EmptyQuotes(Unquoted);
      assert Text([Mark]) == "";
    } else if Escaped(x, sawNonEqual) {
      EscapeReads(x);
    } else {
      forall i | 0 <= i < |x| ensures Literal(x[i]) {
        SafeIsLiteral(x[i]);
      }
      ReadLiteral(Unquoted, x);
    }
  }

  lemma ReadOne(w: string, x: string)
    requires ReadsAs(w, x)
    ensures Read(w) == Some([x])
  {
    var t := Run(Unquoted, w).value.toks;
    WordsUnbroken(t, [], None);
    assert t + [] == t;
    assert Current(None) + Text(t) == x;
  }

  lemma ReadCons(w: string, x: string, rest: string, xs: seq<string>)
    requires ReadsAs(w, x) && Read(rest) == Some(xs)
    ensures Read(w + " " + rest) == Some([x] + xs)
  {
    var t := Run(Unquoted, w).value.toks;
    var tr := Run(Unquoted, rest).value.toks;
    RunAppend(Unquoted, w, " " + rest);
    assert " "[1..] == [];
    assert Run(Unquoted, " ") == Some(State(Unquoted, [Break] + []));
    RunAppend(Unquoted, " ", rest);
    assert w + " " + rest == w + (" " + rest);
    assert Run(Unquoted, w + " " + rest) == Some(State(Unquoted, t + ([Break] + tr)));
    WordsUnbroken(t, [Break] + tr, None);
    assert Current(None) + Text(t) == x;
    assert ([Break] + tr)[0] == Break && ([Break] + tr)[1..] == tr;
    assert WordsFrom([Break] + tr, Some(x)) == [x] + WordsFrom(tr, None);
  }

  /** Words that each read as one word, joined by blanks, read as those
      words. */
  lemma {:induction false} JoinReads(parts: seq<string>, xs: seq<string>)
    requires |parts| == |xs|
    requires forall i | 0 <= i < |parts| :: ReadsAs(parts[i], xs[i])
    ensures Read(Join(parts)) == Some(xs)
  {
    if |parts| == 1 {
      ReadOne(parts[0], xs[0]);
      assert xs == [xs[0]];
    } else if |parts| > 1 {
      JoinReads(parts[1..], xs[1..]);
      ReadCons(parts[0], xs[0], Join(parts[1..]), xs[1..]);
      assert xs == [xs[0]] + xs[1..];
    }
  }

  /** The shell reads the line Quote returns as exactly the tokens it was
      given, and Quote fails exactly when a non-empty token holds a NUL. */
  lemma QuoteRoundTrip(tokens: seq<string>)
    ensures QuoteSpec(tokens).Failure? <==> HasNull(tokens)
    ensures QuoteSpec(tokens).Success? ==> Read(QuoteSpec(tokens).value) == Some(tokens)
  {
    if !HasNull(tokens) {
      var parts := QuotedTokens(tokens);
      forall i | 0 <= i < |tokens| ensures ReadsAs(parts[i], tokens[i]) {
        assert tokens[i] == "" || '\0' !in tokens[i];
        if tokens[i] != "" {
          TokenReads(tokens[i], SawNonEqual(tokens, i));
        } else {
          TokenReads("", SawNonEqual(tokens, i));
        }
      }
      JoinReads(parts, tokens);
    }
  }

  // ---------------------------------------------------------------------
  // Which tokens are escaped, and what an escaped token begins with

  /** The first characters of the first piece EscapeRuns writes. */
  lemma HeadTextStart(x: string)
    requires x != []
    ensures x[0] != '\'' ==> HeadText(x) == [x[0]]
    ensures x[0] == '\'' ==>
              (|HeadText(x)| >= 4 && HeadText(x)[0] == '\'' &&
               HeadText(x)[1] == (if LeadingQuotes(x) >= 2 then '"' else '\\'))
  {
    if x[0] == '\'' {
      var k := LeadingQuotes(x);
      if k >= 2 {
        CollapsedStart(k);
      } else {
        assert Block[0] == '\'' && Block[1] == '\\';
      }
    }
  }

  lemma CollapsedStart(k: nat)
    ensures Collapsed(k)[0] == '\'' && Collapsed(k)[1] == '"'
  {
  }

  /** The first character of the trimmed, quoted text e: the opening quote,
      or the character after a leading quote of e when that quote and the
      opening one are trimmed together. */
  lemma TrimmedFirst(e: string)
    requires e != []
    requires e[0] == '\'' ==> |e| >= 3 && e[1] != '\''
    ensures |TrimPrefix(TrimSuffix("'" + e + "'"))| > 0
    ensures TrimPrefix(TrimSuffix("'" + e + "'"))[0] == (if e[0] == '\'' then e[1] else '\'')
  {
    var w := "'" + e + "'";
    var s := TrimSuffix(w);
    assert |w| == |e| + 2 && w[0] == '\'' && w[1] == e[0];
    assert |s| >= |w| - 2 && s[..|s|] == w[..|s|];
    if e[0] == '\'' {
      assert s[..2] == "''" && s[2] == e[1];
    } else {
      assert s[1] == e[0];
      assert s[..2] != "''";
    }
  }

  /** An escaped token begins with ', with \ (when it begins with one
      quote) or with " (when it begins with a run of quotes); so it never
      begins the way the token did. */
  lemma EscapeFirst(x: string)
    requires x != []
    ensures |Escape(x)| > 0
    ensures Escape(x)[0] == (if x[0] != '\'' then '\'' else if LeadingQuotes(x) >= 2 then '"' else '\\')
    ensures Escape(x) != x
  {
    var e := EscapeRuns(x);
    assert Escape(x) == TrimPrefix(TrimSuffix("'" + e + "'")) by {
      CollapseRuns(x);
    }
    var k := LeadingQuotes(x);
    assert e != [] && (e[0] == '\'' ==> |e| >= 3 && e[1] == (if k >= 2 then '"' else '\\')) &&
           (x[0] != '\'' ==> e[0] == x[0]) && (x[0] == '\'' ==> e[0] == '\'') by {
      EscapeRunsHead(x);
      HeadTextStart(x);
      var part := HeadText(x);
      assert e[0] == part[0];
      if x[0] == '\'' {
        assert e[1] == part[1];
      }
    }
    TrimmedFirst(e);
  }

  /** A non-empty token without NUL comes out unchanged exactly when it is
      not escaped: all its characters are safe, and it holds no '=' or a
      token without '=' came before it. */
  lemma UnchangedIff(tokens: seq<string>, i: int)
    requires 0 <= i < |tokens| && tokens[i] != ""
    ensures QuotedTokens(tokens)[i] == tokens[i] <==>
            !HasUnsafe(tokens[i]) && ('=' !in tokens[i] || SawNonEqual(tokens, i))
  {
    if Escaped(tokens[i], SawNonEqual(tokens, i)) {
      EscapeFirst(tokens[i]);
    }
  }

  /** A token holding '=' is escaped exactly when every non-empty token
      before it holds '=' too, or when it has an unsafe character. */
  lemma EqualRule(tokens: seq<string>, i: int)
    requires 0 <= i < |tokens| && '=' in tokens[i]
    ensures QuotedTokens(tokens)[i] != tokens[i] <==> !SawNonEqual(tokens, i) || HasUnsafe(tokens[i])
  {
    UnchangedIff(tokens, i);
  }

  /** The empty token is written as '' whatever comes before it. */
  lemma EmptyToken(tokens: seq<string>, i: int)
    requires 0 <= i < |tokens| && tokens[i] == ""
    ensures QuotedTokens(tokens)[i] == "''"
    ensures ReadsAs("''", "")
  {
    TokenReads("", false);
  }

  /** No quoted form before the first token without '=' is a variable
      assignment, so the shell takes the first word as the command. */
  lemma NoLeadingAssignment(tokens: seq<string>, i: int)
    requires 0 <= i < |tokens| && !SawNonEqual(tokens, i)
    ensures !IsAssignment(QuotedTokens(tokens)[i])
  {
    var x := tokens[i];
    var w := QuotedTokens(tokens)[i];
    if x != "" && Escaped(x, false) {
      EscapeFirst(x);
      forall e | 0 < e < |w| ensures !IsName(w[..e]) {
        assert w[..e][0] == w[0];
      }
    } else if x == "" {
      assert w == "''";
      forall e | 0 < e < |w| ensures !IsName(w[..e]) {
        assert w[..e][0] == '\'';
      }
    } else {
      assert '=' !in x;
      assert w == x;
    }
  }

  /** A token without quotes is escaped by wrapping it in single quotes. */
  lemma EscapeNoQuote(x: string)
    requires x != [] && '\'' !in x
    ensures Escape(x) == "'" + x + "'"
  {
    CollapseRuns(x);
    EscapeRunsNoQuote(x);
    var w := "'" + x + "'";
    assert w[|w| - 2] == x[|x| - 1] && w[1] == x[0];
  }
}
