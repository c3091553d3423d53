/** The shell-argument quoter of shellquote/shellquote.go: each token is
    left alone when it is made of safe characters only, and otherwise is
    escaped into single quotes; the quoted tokens are joined by spaces. */
module ShellQuote {
  import opened Wrappers

  /** The one error Quote returns. */
  datatype QuoteError = ErrNull

  /** The text of ErrNull, which QuoteMust panics with. */
  const ErrNullMessage: string := "no way to quote string containing null bytes"

  /** An ASCII word character, as Go's regexp class \w. */
  predicate IsWordChar(c: char)
  {
    ('a' <= c <= 'z') || ('A' <= c <= 'Z') || ('0' <= c <= '9') || c == '_'
  }

  /** A character outside the class [^\w!%+,\-./:=@^], that is, one that
      may stand in a shell word without quoting. */
  predicate IsSafe(c: char)
    ensures IsSafe(c) ==>
      c !in {'\0', ' ', '\t', '\n', '|', '&', ';', '<', '>', '(', ')', '$', '`', '\\',
             '"', '\'', '*', '?', '[', ']', '#', '~', '{', '}'}
  {
    IsWordChar(c) || c in {'!', '%', '+', ',', '-', '.', '/', ':', '=', '@', '^'}
  }

  /** The regular expression [^\w!%+,\-./:=@^] matches somewhere in x. */
  predicate HasUnsafe(x: string)
    ensures '\'' in x || ' ' in x || '\\' in x ==> HasUnsafe(x)
  {
    exists i | 0 <= i < |x| :: !IsSafe(x[i])
  }

  /** The four characters ' \ ' ' that close a single-quoted string, write an
      escaped quote and open a new single-quoted string. */
  const Block: string := "'\\''"

  /** strings.ReplaceAll(x, "'", Block). */
  function ReplaceQuotes(x: string): (y: string)
    ensures '\'' !in x ==> y == x
  {
    if x == [] then []
    else (if x[0] == '\'' then Block else [x[0]]) + ReplaceQuotes(x[1..])
  }

  /** The number of copies of Block that y starts with. */
  function Blocks(y: string): (k: nat)
    ensures 4 * k <= |y|
  {
    if |y| >= 4 && y[..4] == Block then 1 + Blocks(y[4..]) else 0
  }

  /** n quote characters. */
  function Quotes(n: nat): (r: string)
    ensures |r| == n
    ensures forall i | 0 <= i < n :: r[i] == '\''
  {
    seq(n, _ => '\'')
  }

  /** What the replacement function passed to ReplaceAllStringFunc makes of
      a match of k copies of Block: '" then k quotes then "'. */
  function Collapsed(k: nat): (r: string)
    ensures |r| == k + 4
  {
    "'\"" + Quotes(k) + "\"'"
  }

  /** The replacement function itself, applied to a match str: one quote
      for each four characters of the match. */
  method SimplifyMatch(str: string) returns (r: string)
    ensures r == Collapsed(|str| / 4)
  {
    var inner := "";
    var i := 0;
    while i < |str| / 4
      invariant 0 <= i <= |str| / 4
      invariant inner == Quotes(i)
    {
      inner := inner + "'";
      i := i + 1;
    }
    r := "'\"" + inner + "\"'";
  }

  /** ReplaceAllStringFunc with the expression (?:'\\''){2,}: the matches are
      found leftmost first and each takes as many copies of Block as follow
      (the repetition is greedy); where no match starts, one character is
      kept and the search moves on. */
  function Collapse(y: string): (r: string)
    ensures |r| <= |y|
    ensures '\'' !in y ==> r == y
    decreases |y|
  {
    if y == [] then []
    else
      var k := Blocks(y);
      if k >= 2 then
        assert y[0] == y[..4][0] == '\'';
        Collapsed(k) + Collapse(y[4 * k..])
      else [y[0]] + Collapse(y[1..])
  }

  /** strings.TrimSuffix(s, "''") */
  function TrimSuffix(s: string): (r: string)
    ensures s == r || s == r + "''"
  {
    if |s| >= 2 && s[|s| - 2..] == "''" then s[..|s| - 2] else s
  }

  /** strings.TrimPrefix(s, "''") */
  function TrimPrefix(s: string): (r: string)
    ensures s == r || s == "''" + r
  {
    if |s| >= 2 && s[..2] == "''" then s[2..] else s
  }

  /** The escaped form of a token (shellquote.go, the body of the escaping
      branch): replace, collapse runs, wrap in quotes, trim. */
  function Escape(x: string): (r: string)
  {
    TrimPrefix(TrimSuffix("'" + Collapse(ReplaceQuotes(x)) + "'"))
  }

  /** Whether a non-empty token is escaped, given whether a token without
      '=' came before it. */
  predicate Escaped(x: string, sawNonEqual: bool)
  {
    ('=' in x && !sawNonEqual) || HasUnsafe(x)
  }

  /** The quoted form of one token that holds no NUL. */
  function QuoteToken(x: string, sawNonEqual: bool): (r: string)
  {
    if x == "" then "''"
    else if Escaped(x, sawNonEqual) then Escape(x)
    else x
  }

  /** Some token before index i is non-empty and holds no '='. Empty tokens
      do not count: the loop skips them before it looks at '='. */
  predicate SawNonEqual(tokens: seq<string>, i: int)
    requires 0 <= i <= |tokens|
  {
    exists j | 0 <= j < i :: tokens[j] != "" && '=' !in tokens[j]
  }

  /** The flag after token i: it was set before, or token i is non-empty and
      holds no '='. */
  lemma SawNonEqualNext(tokens: seq<string>, i: int)
    requires 0 <= i < |tokens|
    ensures SawNonEqual(tokens, i + 1) <==>
            SawNonEqual(tokens, i) || (tokens[i] != "" && '=' !in tokens[i])
  {
    if SawNonEqual(tokens, i + 1) {
      var j :| 0 <= j < i + 1 && tokens[j] != "" && '=' !in tokens[j];
      if j < i {
        assert SawNonEqual(tokens, i);
      }
    }
    if SawNonEqual(tokens, i) {
      var j :| 0 <= j < i && tokens[j] != "" && '=' !in tokens[j];
      assert 0 <= j < i + 1;
    }
  }

  /** Some non-empty token holds a NUL character. */
  predicate HasNull(tokens: seq<string>)
  {
    exists j | 0 <= j < |tokens| :: tokens[j] != "" && '\0' in tokens[j]
  }

  /** strings.Join(parts, " ") */
  function Join(parts: seq<string>): (r: string)
  {
    if parts == [] then []
    else if |parts| == 1 then parts[0]
    else parts[0] + " " + Join(parts[1..])
  }

  /** The quoted form of every token, in order. */
  function QuotedTokens(tokens: seq<string>): (r: seq<string>)
    ensures |r| == |tokens|
  {
    seq(|tokens|, i requires 0 <= i < |tokens| => QuoteToken(tokens[i], SawNonEqual(tokens, i)))
  }

  /** What Quote returns, stated over the whole input instead of through the
      loop's flag. */
  function QuoteSpec(tokens: seq<string>): (r: Result<string, QuoteError>)
    ensures r.Failure? <==> HasNull(tokens)
  {
    if HasNull(tokens) then Failure(ErrNull) else Success(Join(QuotedTokens(tokens)))
  }

  /** The part of Quote's loop body after the empty and NUL checks: updates
      the flag and escapes the token when it holds '=' before any token
      without one, or when it holds an unsafe character. */
  method QuoteNonEmpty(x: string, sawNonEqual: bool) returns (y: string, saw: bool)
    requires x != "" && '\0' !in x
    ensures y == QuoteToken(x, sawNonEqual)
    ensures saw == (sawNonEqual || '=' !in x)
  {
    saw := sawNonEqual;
    var escape := false;
    var hasEqual := '=' in x;
    if hasEqual {
      if !saw {
        escape := true;
      }
    } else {
      saw := true;
    }
    if !escape && HasUnsafe(x) {
      escape := true;
    }
    if escape || (!saw && hasEqual) {
      y := Escape(x);
    } else {
      y := x;
    }
  }

  /** Quote (shellquote.go): fills tmp token by token, carrying the flag
      sawNonEqual, and returns the joined result or ErrNull. */
  method Quote(tokens: seq<string>) returns (r: Result<string, QuoteError>)
    ensures r == QuoteSpec(tokens)
  {
    var tmp: seq<string> := seq(|tokens|, _ => "");
    var sawNonEqual := false;
    var i := 0;
    while i < |tokens|
      invariant 0 <= i <= |tokens| && |tmp| == |tokens|
      invariant sawNonEqual == SawNonEqual(tokens, i)
      invariant forall j | 0 <= j < i :: tokens[j] == "" || '\0' !in tokens[j]
      invariant forall j | 0 <= j < i :: tmp[j] == QuoteToken(tokens[j], SawNonEqual(tokens, j))
    {
      var x := tokens[i];
      SawNonEqualNext(tokens, i);
      if x == "" {
        tmp := tmp[i := "''"];
      } else {
        if '\0' in x {
          assert tokens[i] != "" && '\0' in tokens[i];
          return Failure(ErrNull);
        }
        var y;
        y, sawNonEqual := QuoteNonEmpty(x, sawNonEqual);
        tmp := tmp[i := y];
      }
      i := i + 1;
    }
    assert !HasNull(tokens);
    assert tmp == QuotedTokens(tokens);
    r := Success(Join(tmp));
  }

  /** QuoteMust (shellquote.go): Quote's string, or a panic with ErrNull. */
  method QuoteMust(tokens: seq<string>) returns (r: Fatal<string>)
    ensures r == (if HasNull(tokens) then Panic(ErrNullMessage)
                  else Value(Join(QuotedTokens(tokens))))
  {
    var result := Quote(tokens);
    if result.Failure? {
      return Panic(ErrNullMessage);
    }
    return Value(result.value);
  }
}
