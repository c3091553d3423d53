/** Properties of the line decoder: what one Write does to its input (counts,
    overflow fields, the carry), how its lines relate to a reference line
    splitter, and the behaviours the decoder's own tests pin. */
module LinestreamProps {
  import opened Wrappers
  import opened Bytes
  import opened Linestream

  /** No byte of s is b. */
  predicate Free(s: seq<byte>, b: byte)
  {
    forall i | 0 <= i < |s| :: s[i] != b
  }

  lemma FreeNotIn(s: seq<byte>, b: byte)
    ensures Free(s, b) <==> b !in s
  {
    if b in s {
      var i :| 0 <= i < |s| && s[i] == b;
    }
  }

  // ---------------------------------------------------------------------------
  // Stepping through the scanning loop

  /** One turn of the scanning loop when the next newline is k bytes ahead. */
  lemma ScanLine(p: seq<byte>, pos: nat, acc: seq<seq<byte>>, k: nat)
    requires pos + k < |p| && p[pos + k] == NL
    requires forall j | pos <= j < pos + k :: p[j] != NL
    ensures Scan(p, pos, acc) == Scan(p, pos + k + 1, acc + [p[pos..LineEnd(p, pos, k)]])
  {
    IndexFromFirst(p[pos..], 0, NL);
    ScanStep(p, pos, acc, k);
  }

  /** The scanning loop stops when no newline is left. */
  lemma ScanDone(p: seq<byte>, pos: nat, acc: seq<seq<byte>>)
    requires pos <= |p| && forall j | pos <= j < |p| :: p[j] != NL
    ensures Scan(p, pos, acc) == (acc, pos)
  {
    IndexFromFirst(p[pos..], 0, NL);
  }

  /** ScanLine with the line and the lines cut so far given outright. */
  lemma ScanCut(p: seq<byte>, pos: nat, acc: seq<seq<byte>>, k: nat, line: seq<byte>, acc': seq<seq<byte>>)
    requires pos + k < |p| && p[pos + k] == NL
    requires forall j | pos <= j < pos + k :: p[j] != NL
    requires line == p[pos..LineEnd(p, pos, k)] && acc' == acc + [line]
    ensures Scan(p, pos, acc) == Scan(p, pos + k + 1, acc')
  {
    ScanLine(p, pos, acc, k);
  }

  /** The lines already cut are only carried along. */
  lemma {:induction false} ScanAcc(p: seq<byte>, pos: nat, acc: seq<seq<byte>>)
    requires pos <= |p|
    ensures Scan(p, pos, acc).0 == acc + Scan(p, pos, []).0
    ensures Scan(p, pos, acc).1 == Scan(p, pos, []).1
    decreases |p| - pos
  {
    var off := IndexByte(p[pos..], NL);
    if off >= 0 {
      var next := pos + off + 1;
      var seg := p[pos..LineEnd(p, pos, off)];
      var one: seq<seq<byte>> := [] + [seg];
      ScanStep(p, pos, acc, off);
      ScanStep(p, pos, [], off);
      ScanAcc(p, next, acc + [seg]);
      ScanAcc(p, next, one);
      assert one == [seg];
      assert (acc + [seg]) + Scan(p, next, []).0 == acc + ([seg] + Scan(p, next, []).0);
    }
  }

  /** The scanning loop cuts one line per newline of p. */
  lemma {:induction false} ScanCount(p: seq<byte>, pos: nat, acc: seq<seq<byte>>)
    requires pos <= |p|
    ensures |Scan(p, pos, acc).0| == |acc| + multiset(p[pos..])[NL]
    decreases |p| - pos
  {
    var off := IndexByte(p[pos..], NL);
    if off >= 0 {
      var next := pos + off + 1;
      var acc' := acc + [p[pos..LineEnd(p, pos, off)]];
      assert multiset(p[pos..])[NL] == 1 + multiset(p[next..])[NL] by {
        IndexByteFirst(p[pos..], NL);
        FirstNewline(p[pos..], off);
        assert p[pos..][off + 1..] == p[next..];
      }
      assert Scan(p, pos, acc) == Scan(p, next, acc') by {
        ScanStep(p, pos, acc, off);
      }
      ScanCount(p, next, acc');
    } else {
      assert multiset(p[pos..])[NL] == 0 by {
        IndexByteFirst(p[pos..], NL);
      }
    }
  }

  /** A sequence whose first newline is at off holds one newline more than
      what follows it. */
  lemma FirstNewline(s: seq<byte>, off: nat)
    requires off < |s| && s[off] == NL && NL !in s[..off]
    ensures multiset(s)[NL] == 1 + multiset(s[off + 1..])[NL]
  {
    assert s == s[..off] + [NL] + s[off + 1..];
    NewlineCount(s[..off], s[off + 1..]);
  }

  /** A newline-free a, a newline and b hold one newline more than b. */
  lemma NewlineCount(a: seq<byte>, b: seq<byte>)
    requires NL !in a
    ensures multiset(a + [NL] + b)[NL] == 1 + multiset(b)[NL]
  {
    assert multiset(a + [NL] + b) == multiset(a) + multiset([NL]) + multiset(b);
    assert multiset(a)[NL] == 0;
  }

  /** No line the scanning loop cuts holds a newline. */
  lemma {:induction false} ScanNoNewline(p: seq<byte>, pos: nat, acc: seq<seq<byte>>)
    requires pos <= |p|
    requires forall i | 0 <= i < |acc| :: Free(acc[i], NL)
    ensures forall i | 0 <= i < |Scan(p, pos, acc).0| :: Free(Scan(p, pos, acc).0[i], NL)
    decreases |p| - pos
  {
    var off := IndexByte(p[pos..], NL);
    if off >= 0 {
      IndexFromFirst(p[pos..], 0, NL);
      var seg := p[pos..LineEnd(p, pos, off)];
      assert Free(seg, NL) by {
        forall i | 0 <= i < |seg| ensures seg[i] != NL {
          assert seg[i] == p[pos..][i];
        }
      }
      ScanStep(p, pos, acc, off);
      ScanNoNewline(p, pos + off + 1, acc + [seg]);
    }
  }

  lemma PrefixedNil(segs: seq<seq<byte>>)
    ensures Prefixed([], segs) == segs
  {
    if segs != [] {
      assert [] + segs[0] == segs[0];
      assert [segs[0]] + segs[1..] == segs;
    }
  }

  lemma PrefixedCons(carry: seq<byte>, x: seq<byte>, segs: seq<seq<byte>>)
    ensures Prefixed(carry, [x] + segs) == [carry + x] + segs
  {
    assert ([x] + segs)[1..] == segs;
  }

  // ---------------------------------------------------------------------------
  // What one Write does, stated without the scanning loop

  /** Write consumes all of p exactly when it reports no overflow, and on an
      overflow it stops just after a newline (or at the start), leaving a
      newline-free rest. */
  lemma WriteCount(carry: seq<byte>, size: nat, p: seq<byte>)
    requires |carry| <= size
    ensures var s := WriteSpec(carry, size, p);
            s.err == None <==> s.n == |p|
    ensures var s := WriteSpec(carry, size, p);
            s.err.Some? ==> 0 <= s.n < |p| && (s.n == 0 || p[s.n - 1] == NL) && NL !in p[s.n..]
  {
    ScanTail(p, 0, []);
    var q := Scan(p, 0, []).1;
    FreeNotIn(p[q..], NL);
    assert Free(p[q..], NL) by {
      forall i | 0 <= i < |p[q..]| ensures p[q..][i] != NL {
        assert p[q..][i] == p[q + i];
      }
    }
  }

  /** One line is emitted per newline byte of p, whether or not the tail
      overflows. */
  lemma WriteLineCount(carry: seq<byte>, size: nat, p: seq<byte>)
    requires |carry| <= size
    ensures |WriteSpec(carry, size, p).lines| == multiset(p)[NL]
  {
    ScanCount(p, 0, []);
    assert p[0..] == p;
  }

  /** When the carried bytes hold no newline (the decoder's invariant), no
      emitted line holds one. */
  lemma WriteLinesNoNewline(carry: seq<byte>, size: nat, p: seq<byte>)
    requires |carry| <= size && NL !in carry
    ensures var s := WriteSpec(carry, size, p);
            forall i | 0 <= i < |s.lines| :: NL !in s.lines[i]
  {
    var segs := Scan(p, 0, []).0;
    ScanNoNewline(p, 0, []);
    FreeNotIn(carry, NL);
    var lines := Prefixed(carry, segs);
    forall i | 0 <= i < |lines| ensures NL !in lines[i] {
      if i == 0 {
        assert Free(carry + segs[0], NL) by {
          forall j | 0 <= j < |carry + segs[0]| ensures (carry + segs[0])[j] != NL {
            if j >= |carry| {
              assert (carry + segs[0])[j] == segs[0][j - |carry|];
            }
          }
        }
        FreeNotIn(carry + segs[0], NL);
      } else {
        assert lines[i] == segs[i];
        FreeNotIn(segs[i], NL);
      }
    }
  }

  /** The overflow: the line is the carried bytes followed by the rest of p,
      the buffer size is the one in force and the free count is what is left
      of it; the line is longer than the buffer, so the count Error() reports
      is positive; and the carry is not extended - it is the old carry when no
      line was completed and empty when one was. */
  lemma OverflowFields(carry: seq<byte>, size: nat, p: seq<byte>)
    requires |carry| <= size
    ensures var s := WriteSpec(carry, size, p);
            s.err.Some? ==>
              s.carry == (if s.lines == [] then carry else []) &&
              s.err.value.line == s.carry + p[s.n..] &&
              s.err.value.bufferSize == size &&
              s.err.value.bufferFree == size - |s.carry| &&
              s.err.value.bufferFree < |p| - s.n &&
              TooLongBy(s.err.value) > 0
  {
  }

  /** Without an overflow the carry is the old carry and all of p when p has
      no newline, and otherwise the newline-free tail after the last newline
      of p; either way it fits the buffer. */
  lemma CarryFields(carry: seq<byte>, size: nat, p: seq<byte>)
    requires |carry| <= size
    ensures var s := WriteSpec(carry, size, p);
            s.err == None ==>
              |s.carry| <= size &&
              (s.lines == [] ==> s.carry == carry + p) &&
              (s.lines != [] ==> |s.carry| < |p| && s.carry == p[|p| - |s.carry|..] &&
                                 p[|p| - |s.carry| - 1] == NL && NL !in s.carry)
  {
    var q := Scan(p, 0, []).1;
    var segs := Scan(p, 0, []).0;
    ScanTail(p, 0, []);
    ScanStart(p);
    assert p[0..] == p;
    if segs != [] {
      assert Free(p[q..], NL) by {
        forall i | 0 <= i < |p[q..]| ensures p[q..][i] != NL {
          assert p[q..][i] == p[q + i];
        }
      }
      FreeNotIn(p[q..], NL);
    }
  }

  /** The scanning loop moves past offset 0 exactly when it cuts a line. */
  lemma ScanStart(p: seq<byte>)
    ensures Scan(p, 0, []).0 == [] <==> Scan(p, 0, []).1 == 0
  {
    var off := IndexByte(p[0..], NL);
    if off >= 0 {
      var one: seq<seq<byte>> := [] + [p[0..LineEnd(p, 0, off)]];
      ScanStep(p, 0, [], off);
      ScanAcc(p, off + 1, one);
    }
  }

  /** Without an overflow the carry keeps the decoder's invariant: it holds
      no newline. */
  lemma CarryNoNewline(carry: seq<byte>, size: nat, p: seq<byte>)
    requires |carry| <= size && NL !in carry
    ensures var s := WriteSpec(carry, size, p);
            s.err == None ==> NL !in s.carry
  {
    var s := WriteSpec(carry, size, p);
    CarryFields(carry, size, p);
    if s.err == None && s.lines == [] {
      WriteLineCount(carry, size, p);
      assert NL !in multiset(p);
      assert NL !in p;
    }
  }

  /** After an overflow the decoder is unchanged, so writing the unconsumed
      rest again reports the same overflow and consumes nothing. */
  lemma OverflowRetry(carry: seq<byte>, size: nat, p: seq<byte>)
    requires |carry| <= size
    ensures var s := WriteSpec(carry, size, p);
            s.err.Some? ==>
              (|s.carry| <= size && WriteSpec(s.carry, size, p[s.n..]) == Step(0, s.err, [], s.carry))
  {
    var s := WriteSpec(carry, size, p);
    if s.err.Some? {
      WriteCount(carry, size, p);
      var r := p[s.n..];
      FreeNotIn(r, NL);
      ScanDone(r, 0, []);
      assert r[0..] == r;
    }
  }

  // ---------------------------------------------------------------------------
  // A reference line splitter

  /** The completed lines and the unterminated rest of a byte stream. */
  datatype Split = Split(lines: seq<seq<byte>>, rest: seq<byte>)

  /** One byte more: a newline completes the rest as a line. */
  function Push(a: Split, b: byte): (r: Split)
    ensures b == NL ==> r.lines == a.lines + [a.rest] && r.rest == []
    ensures b != NL ==> r.lines == a.lines && r.rest == a.rest + [b]
  {
    if b == NL then Split(a.lines + [a.rest], []) else Split(a.lines, a.rest + [b])
  }

  /** The bytes of s, one after the other. Lines are only ever appended. */
  function Feed(a: Split, s: seq<byte>): (r: Split)
    decreases |s|
  {
    if s == [] then a else Push(Feed(a, s[..|s| - 1]), s[|s| - 1])
  }

  lemma {:induction false} FeedAppend(a: Split, s: seq<byte>, t: seq<byte>)
    ensures Feed(a, s + t) == Feed(Feed(a, s), t)
    decreases |t|
  {
    if t == [] {
      assert s + t == s;
    } else {
      var t' := t[..|t| - 1];
      assert (s + t)[..|s + t| - 1] == s + t';
      assert (s + t)[|s + t| - 1] == t[|t| - 1];
      FeedAppend(a, s, t');
    }
  }

  /** Bytes without a newline only extend the rest. */
  lemma {:induction false} FeedFree(a: Split, t: seq<byte>)
    requires Free(t, NL)
    ensures Feed(a, t) == Split(a.lines, a.rest + t)
    decreases |t|
  {
    if t == [] {
      assert a.rest + t == a.rest;
    } else {
      var t' := t[..|t| - 1];
      FeedFree(a, t');
      assert a.rest + t' + [t[|t| - 1]] == a.rest + t;
    }
  }

  /** Lines completed before do not affect the ones that follow. */
  lemma {:induction false} FeedShift(lines: seq<seq<byte>>, rest: seq<byte>, t: seq<byte>)
    ensures Feed(Split(lines, rest), t) ==
            Split(lines + Feed(Split([], rest), t).lines, Feed(Split([], rest), t).rest)
    decreases |t|
  {
    if t == [] {
      assert lines + [] == lines;
    } else {
      var t' := t[..|t| - 1];
      FeedShift(lines, rest, t');
      var f := Feed(Split([], rest), t');
      if t[|t| - 1] == NL {
        assert lines + f.lines + [f.rest] == lines + (f.lines + [f.rest]);
      }
    }
  }

  /** For input without carriage returns, the scanning loop from pos cuts the
      lines the reference splitter completes on p[pos..], the first behind the
      given rest. */
  lemma {:induction false} ScanIsFeed(p: seq<byte>, pos: nat, lines: seq<seq<byte>>, rest: seq<byte>)
    requires pos <= |p| && Free(p, CR)
    ensures var segs := Scan(p, pos, []).0;
            Feed(Split(lines, rest), p[pos..]) ==
            Split(lines + Prefixed(rest, segs), (if segs == [] then rest else []) + p[Scan(p, pos, []).1..])
    decreases |p| - pos
  {
    var off := IndexByte(p[pos..], NL);
    IndexFromFirst(p[pos..], 0, NL);
    if off < 0 {
      assert Free(p[pos..], NL);
      FeedFree(Split(lines, rest), p[pos..]);
      assert lines + [] == lines;
    } else {
      var next := pos + off + 1;
      var seg := p[pos..pos + off];
      var done := Split(lines + [rest + seg], []);
      var tail, q := Scan(p, next, []).0, Scan(p, next, []).1;
      var segs := Scan(p, pos, []).0;
      assert Feed(Split(lines, rest), p[pos..]) == Split(done.lines + tail, p[q..]) by {
        FirstLine(p, pos, lines, rest, off);
        ScanIsFeed(p, next, done.lines, []);
        PrefixedNil(tail);
        assert [] + p[q..] == p[q..];
      }
      assert segs == [seg] + tail && Scan(p, pos, []).1 == q by {
        FirstLine(p, pos, lines, rest, off);
      }
      PrefixedJoin(lines, rest, seg, tail);
      assert (if segs == [] then rest else []) + p[q..] == p[q..];
    }
  }

  lemma PrefixedJoin(lines: seq<seq<byte>>, rest: seq<byte>, seg: seq<byte>, tail: seq<seq<byte>>)
    ensures lines + Prefixed(rest, [seg] + tail) == (lines + [rest + seg]) + tail
  {
    PrefixedCons(rest, seg, tail);
  }

  /** One turn of the scanning loop, for input without carriage returns:
      the splitter completes the same line, and the loop goes on after it. */
  lemma FirstLine(p: seq<byte>, pos: nat, lines: seq<seq<byte>>, rest: seq<byte>, off: int)
    requires pos <= |p| && Free(p, CR) && off == IndexByte(p[pos..], NL) && off >= 0
    ensures var next, seg := pos + off + 1, p[pos..pos + off];
            Feed(Split(lines, rest), p[pos..]) == Feed(Split(lines + [rest + seg], []), p[next..]) &&
            Scan(p, pos, []) == ([seg] + Scan(p, next, []).0, Scan(p, next, []).1)
  {
    var next := pos + off + 1;
    var seg := p[pos..pos + off];
    assert Free(seg, NL) by {
      IndexFromFirst(p[pos..], 0, NL);
      forall i | 0 <= i < |seg| ensures seg[i] != NL {
        assert seg[i] == p[pos..][i];
      }
    }
    assert p[pos..] == (seg + [NL]) + p[next..] by {
      assert p[pos + off] == p[pos..][off] == NL;
    }
    assert Feed(Split(lines, rest), p[pos..]) == Feed(Split(lines + [rest + seg], []), p[next..]) by {
      FeedLine(Split(lines, rest), seg);
      FeedAppend(Split(lines, rest), seg + [NL], p[next..]);
    }
    assert LineEnd(p, pos, off) == pos + off;
    assert Scan(p, pos, []) == Scan(p, next, [seg]) by {
      ScanStep(p, pos, [], off);
      assert [] + [seg] == [seg];
    }
    ScanAcc(p, next, [seg]);
  }

  /** A newline-free t followed by a newline completes one line. */
  lemma FeedLine(a: Split, t: seq<byte>)
    requires Free(t, NL)
    ensures Feed(a, t + [NL]) == Split(a.lines + [a.rest + t], [])
  {
    assert (t + [NL])[..|t + [NL]| - 1] == t;
    FeedFree(a, t);
  }

  /** WriteSpec in terms of the tail it would carry: the carried bytes when
      no line is completed, then the bytes after the last newline. */
  lemma WriteShape(carry: seq<byte>, size: nat, p: seq<byte>)
    requires |carry| <= size
    ensures var s := WriteSpec(carry, size, p);
            var segs := Scan(p, 0, []).0;
            var tail := (if segs == [] then carry else []) + p[Scan(p, 0, []).1..];
            s.lines == Prefixed(carry, segs) &&
            (s.err == None <==> |tail| <= size) &&
            (s.err == None ==> s.carry == tail) &&
            (s.err.Some? ==> s.err.value.line == tail)
  {
  }

  /** For input without carriage returns, one Write emits exactly the lines
      the reference splitter completes on the carried bytes followed by p; it
      overflows exactly when the splitter's rest is longer than the buffer;
      and that rest is the new carry, or the overflow's line. */
  lemma WriteIsSplit(carry: seq<byte>, size: nat, p: seq<byte>)
    requires |carry| <= size && NL !in carry && CR !in p
    ensures var s := WriteSpec(carry, size, p);
            var f := Feed(Split([], []), carry + p);
            s.lines == f.lines &&
            (s.err == None <==> |f.rest| <= size) &&
            (s.err == None ==> s.carry == f.rest) &&
            (s.err.Some? ==> s.err.value.line == f.rest)
  {
    WriteShape(carry, size, p);
    SplitOfWrite(carry, p);
  }

  /** The reference splitter on the carried bytes followed by p: the lines
      the scanning loop cuts, the first behind the carried bytes, and the
      tail after the last newline. */
  lemma SplitOfWrite(carry: seq<byte>, p: seq<byte>)
    requires NL !in carry && CR !in p
    ensures var segs := Scan(p, 0, []).0;
            Feed(Split([], []), carry + p) ==
            Split(Prefixed(carry, segs), (if segs == [] then carry else []) + p[Scan(p, 0, []).1..])
  {
    var segs := Scan(p, 0, []).0;
    var tail := (if segs == [] then carry else []) + p[Scan(p, 0, []).1..];
    var e := Split([], []);
    assert Feed(e, carry) == Split([], carry) by {
      FreeNotIn(carry, NL);
      FeedFree(e, carry);
      assert [] + carry == carry;
    }
    assert Feed(e, carry + p) == Feed(Split([], carry), p) by {
      FeedAppend(e, carry, p);
    }
    assert Feed(Split([], carry), p) == Split(Prefixed(carry, segs), tail) by {
      FreeNotIn(p, CR);
      ScanIsFeed(p, 0, [], carry);
      assert p[0..] == p;
      assert [] + Prefixed(carry, segs) == Prefixed(carry, segs);
    }
  }

  /** Splitting carry + p1 + p2 goes through the rest left after p1. */
  lemma FeedChunks(carry: seq<byte>, p1: seq<byte>, p2: seq<byte>, rest: seq<byte>)
    requires Feed(Split([], []), carry + p1).rest == rest && NL !in rest
    ensures var f := Feed(Split([], []), carry + p1);
            var g := Feed(Split([], []), rest + p2);
            Feed(Split([], []), carry + (p1 + p2)) == Split(f.lines + g.lines, g.rest)
  {
    var e := Split([], []);
    var f := Feed(e, carry + p1);
    var g := Feed(e, rest + p2);
    assert Feed(e, carry + (p1 + p2)) == Feed(f, p2) by {
      assert carry + (p1 + p2) == (carry + p1) + p2;
      FeedAppend(e, carry + p1, p2);
    }
    assert Feed(f, p2) == Split(f.lines + Feed(Split([], rest), p2).lines, Feed(Split([], rest), p2).rest) by {
      FeedShift(f.lines, f.rest, p2);
    }
    FeedRestart(rest, p2);
  }

  /** A splitter that has completed nothing yet and holds a newline-free
      rest is where a fresh one is after reading that rest. */
  lemma FeedRestart(rest: seq<byte>, t: seq<byte>)
    requires NL !in rest
    ensures Feed(Split([], rest), t) == Feed(Split([], []), rest + t)
  {
    var e := Split([], []);
    FreeNotIn(rest, NL);
    FeedAppend(e, rest, t);
    FeedFree(e, rest);
    assert [] + rest == rest;
  }

  /** The split of a stream into writes does not change the lines: for input
      without carriage returns, two writes that do not overflow emit the same
      lines and leave the same carry as one write of both chunks, which does
      not overflow either. */
  lemma WriteChunks(carry: seq<byte>, size: nat, p1: seq<byte>, p2: seq<byte>)
    requires |carry| <= size && NL !in carry && CR !in p1 && CR !in p2
    requires WriteSpec(carry, size, p1).err == None
    requires WriteSpec(WriteSpec(carry, size, p1).carry, size, p2).err == None
    ensures var s1 := WriteSpec(carry, size, p1);
            var s2 := WriteSpec(s1.carry, size, p2);
            WriteSpec(carry, size, p1 + p2) == Step(|p1 + p2|, None, s1.lines + s2.lines, s2.carry)
  {
    var e := Split([], []);
    var s1 := WriteSpec(carry, size, p1);
    var s2 := WriteSpec(s1.carry, size, p2);
    var s := WriteSpec(carry, size, p1 + p2);
    var f1 := Feed(e, carry + p1);
    var f2 := Feed(e, s1.carry + p2);
    var f := Feed(e, carry + (p1 + p2));
    assert s1.lines == f1.lines && s1.carry == f1.rest && NL !in s1.carry && |s1.carry| <= size by {
      CarryNoNewline(carry, size, p1);
      CarryFields(carry, size, p1);
      WriteIsSplit(carry, size, p1);
    }
    assert s2.lines == f2.lines && s2.carry == f2.rest by {
      WriteIsSplit(s1.carry, size, p2);
    }
    assert f == Split(f1.lines + f2.lines, f2.rest) by {
      FeedChunks(carry, p1, p2, s1.carry);
    }
    assert |s2.carry| <= size by {
      CarryFields(s1.carry, size, p2);
    }
    assert s.lines == f.lines && (s.err == None <==> |f.rest| <= size) && (s.err == None ==> s.carry == f.rest) by {
      assert CR !in p1 + p2;
      WriteIsSplit(carry, size, p1 + p2);
    }
    assert s.err == None <==> s.n == |p1 + p2| by {
      WriteCount(carry, size, p1 + p2);
    }
  }

  // ---------------------------------------------------------------------------
  // The behaviours the decoder's tests pin

  /** "foo\nbar\n" from a fresh decoder: all 8 bytes, no error, "foo" then
      "bar". */
  lemma TwoLines()
    ensures WriteSpec([], DefaultLineBufferSize, [102, 111, 111, 10, 98, 97, 114, 10]) ==
            Step(8, None, [[102, 111, 111], [98, 97, 114]], [])
  {
    TwoLinesOn([102, 111, 111, 10, 98, 97, 114, 10]);
  }

  // Each example is proved on an input given byte by byte, so that the
  // verifier does not evaluate the scanning loop on the literal itself.

  lemma TwoLinesOn(p: seq<byte>)
    requires |p| == 8 && p[0] == 102 && p[1] == 111 && p[2] == 111 && p[3] == 10
    requires p[4] == 98 && p[5] == 97 && p[6] == 114 && p[7] == 10
    ensures WriteSpec([], DefaultLineBufferSize, p) == Step(8, None, [[102, 111, 111], [98, 97, 114]], [])
  {
    var foo: seq<byte> := [102, 111, 111];
    var bar: seq<byte> := [98, 97, 114];
    ScanCut(p, 0, [], 3, foo, [foo]);
    ScanCut(p, 4, [foo], 3, bar, [foo, bar]);
    ScanDone(p, 8, [foo, bar]);
    PrefixedNil([foo, bar]);
  }

  /** Blank lines are emitted as empty lines: "foo\n\nbar\n" gives "foo", "",
      "bar". */
  lemma BlankLineInside()
    ensures WriteSpec([], DefaultLineBufferSize, [102, 111, 111, 10, 10, 98, 97, 114, 10]) ==
            Step(9, None, [[102, 111, 111], [], [98, 97, 114]], [])
  {
    BlankLineInsideOn([102, 111, 111, 10, 10, 98, 97, 114, 10]);
  }

  lemma BlankLineInsideOn(p: seq<byte>)
    requires |p| == 9 && p[0] == 102 && p[1] == 111 && p[2] == 111 && p[3] == 10 && p[4] == 10
    requires p[5] == 98 && p[6] == 97 && p[7] == 114 && p[8] == 10
    ensures WriteSpec([], DefaultLineBufferSize, p) == Step(9, None, [[102, 111, 111], [], [98, 97, 114]], [])
  {
    var foo: seq<byte> := [102, 111, 111];
    var bar: seq<byte> := [98, 97, 114];
    assert Scan(p, 0, []) == Scan(p, 4, [foo]) by {
      assert LineEnd(p, 0, 3) == 3 && p[0..3] == foo;
      ScanCut(p, 0, [], 3, foo, [foo]);
    }
    assert Scan(p, 4, [foo]) == Scan(p, 5, [foo, []]) by {
      assert LineEnd(p, 4, 0) == 4 && p[4..4] == [];
      ScanCut(p, 4, [foo], 0, [], [foo, []]);
    }
    assert Scan(p, 5, [foo, []]) == Scan(p, 9, [foo, [], bar]) by {
      assert LineEnd(p, 5, 3) == 8 && p[5..8] == bar;
      ScanCut(p, 5, [foo, []], 3, bar, [foo, [], bar]);
    }
    ScanDone(p, 9, [foo, [], bar]);
    PrefixedNil([foo, [], bar]);
  }

  /** "\n\n\n" gives three empty lines. */
  lemma BlankLinesOnly()
    ensures WriteSpec([], DefaultLineBufferSize, [10, 10, 10]) == Step(3, None, [[], [], []], [])
  {
    BlankLinesOnlyOn([10, 10, 10]);
  }

  lemma BlankLinesOnlyOn(p: seq<byte>)
    requires |p| == 3 && p[0] == 10 && p[1] == 10 && p[2] == 10
    ensures WriteSpec([], DefaultLineBufferSize, p) == Step(3, None, [[], [], []], [])
  {
    ScanCut(p, 0, [], 0, [], [[]]);
    ScanCut(p, 1, [[]], 0, [], [[], []]);
    ScanCut(p, 2, [[], []], 0, [], [[], [], []]);
    ScanDone(p, 3, [[], [], []]);
    PrefixedNil([[], [], []]);
  }

  /** "foo\n\n\n" gives "foo" and two empty lines. */
  lemma BlankLinesAtEnd()
    ensures WriteSpec([], DefaultLineBufferSize, [102, 111, 111, 10, 10, 10]) ==
            Step(6, None, [[102, 111, 111], [], []], [])
  {
    BlankLinesAtEndOn([102, 111, 111, 10, 10, 10]);
  }

  lemma BlankLinesAtEndOn(p: seq<byte>)
    requires |p| == 6 && p[0] == 102 && p[1] == 111 && p[2] == 111
    requires p[3] == 10 && p[4] == 10 && p[5] == 10
    ensures WriteSpec([], DefaultLineBufferSize, p) == Step(6, None, [[102, 111, 111], [], []], [])
  {
    var foo: seq<byte> := [102, 111, 111];
    ScanCut(p, 0, [], 3, foo, [foo]);
    ScanCut(p, 4, [foo], 0, [], [foo, []]);
    ScanCut(p, 5, [foo, []], 0, [], [foo, [], []]);
    ScanDone(p, 6, [foo, [], []]);
    PrefixedNil([foo, [], []]);
  }

  /** "foo\r\nbar\r\n" gives "foo" and "bar": both carriage returns go. */
  lemma CarriageReturns()
    ensures WriteSpec([], DefaultLineBufferSize, [102, 111, 111, 13, 10, 98, 97, 114, 13, 10]) ==
            Step(10, None, [[102, 111, 111], [98, 97, 114]], [])
  {
    CarriageReturnsOn([102, 111, 111, 13, 10, 98, 97, 114, 13, 10]);
  }

  lemma CarriageReturnsOn(p: seq<byte>)
    requires |p| == 10 && p[0] == 102 && p[1] == 111 && p[2] == 111 && p[3] == 13 && p[4] == 10
    requires p[5] == 98 && p[6] == 97 && p[7] == 114 && p[8] == 13 && p[9] == 10
    ensures WriteSpec([], DefaultLineBufferSize, p) == Step(10, None, [[102, 111, 111], [98, 97, 114]], [])
  {
    var foo: seq<byte> := [102, 111, 111];
    var bar: seq<byte> := [98, 97, 114];
    assert LineEnd(p, 0, 4) == 3 && LineEnd(p, 5, 4) == 8;
    ScanCut(p, 0, [], 4, foo, [foo]);
    ScanCut(p, 5, [foo], 4, bar, [foo, bar]);
    ScanDone(p, 10, [foo, bar]);
    PrefixedNil([foo, bar]);
  }

  /** The carriage-return test reads the byte at the newline's offset within
      the current line but indexes p from its start, so on a later line it
      tests the wrong byte: "a\r\nbc\n" gives "a" and then "b", the "c" being
      dropped because p[1] is a carriage return. */
  lemma CarriageReturnProbe()
    ensures WriteSpec([], DefaultLineBufferSize, [97, 13, 10, 98, 99, 10]) ==
            Step(6, None, [[97], [98]], [])
  {
    CarriageReturnProbeOn([97, 13, 10, 98, 99, 10]);
  }

  lemma CarriageReturnProbeOn(p: seq<byte>)
    requires |p| == 6 && p[0] == 97 && p[1] == 13 && p[2] == 10
    requires p[3] == 98 && p[4] == 99 && p[5] == 10
    ensures WriteSpec([], DefaultLineBufferSize, p) == Step(6, None, [[97], [98]], [])
  {
    assert LineEnd(p, 0, 2) == 1 && LineEnd(p, 3, 2) == 4;
    ScanCut(p, 0, [], 2, [97], [[97]]);
    ScanCut(p, 3, [[97]], 2, [98], [[97], [98]]);
    ScanDone(p, 6, [[97], [98]]);
    PrefixedNil([[97], [98]]);
  }

  /** As written, a later line can keep the carriage return before its
      newline: in "ab\nc\r\n" the second line's test reads p[1], a 'b', so
      the lines are "ab" and "c\r". */
  lemma CarriageReturnKept()
    ensures WriteSpec([], DefaultLineBufferSize, [97, 98, 10, 99, 13, 10]) ==
            Step(6, None, [[97, 98], [99, 13]], [])
  {
    CarriageReturnKeptOn([97, 98, 10, 99, 13, 10]);
  }

  lemma CarriageReturnKeptOn(p: seq<byte>)
    requires |p| == 6 && p[0] == 97 && p[1] == 98 && p[2] == 10
    requires p[3] == 99 && p[4] == 13 && p[5] == 10
    ensures WriteSpec([], DefaultLineBufferSize, p) == Step(6, None, [[97, 98], [99, 13]], [])
  {
    assert LineEnd(p, 0, 2) == 2 && LineEnd(p, 3, 2) == 5;
    ScanCut(p, 0, [], 2, [97, 98], [[97, 98]]);
    ScanCut(p, 3, [[97, 98]], 2, [99, 13], [[97, 98], [99, 13]]);
    ScanDone(p, 6, [[97, 98], [99, 13]]);
    PrefixedNil([[97, 98], [99, 13]]);
  }

  /** The carriage-return test as evidently intended: the byte before the
      newline within the current line, p[start + off - 1]. Write models the
      code as written (LineEnd); this is the corrected definition. */
  function IntendedLineEnd(p: seq<byte>, start: nat, off: nat): (e: nat)
    requires start + off < |p|
    ensures start <= e <= start + off
  {
    if off > 0 && p[start + off - 1] == CR then start + off - 1 else start + off
  }

  /** The corrected test drops exactly one carriage return standing right
      before the newline, and keeps every other byte of the line. */
  lemma IntendedLineEndDropsCR(p: seq<byte>, start: nat, off: nat)
    requires start + off < |p|
    ensures var e := IntendedLineEnd(p, start, off);
            p[start..start + off] == p[start..e] + (if e < start + off then [CR] else []) &&
            (e == start + off ==> off == 0 || p[start + off - 1] != CR)
  {
    var e := IntendedLineEnd(p, start, off);
    if e < start + off {
      assert p[start..start + off] == p[start..e] + [p[e]];
    } else {
      assert p[start..e] + [] == p[start..e];
    }
  }

  /** On the first line of a write the code as written and the corrected test
      agree, which is why "foo\r\nbar\r\n" comes out right. */
  lemma IntendedOnFirstLine(p: seq<byte>, off: nat)
    requires off < |p|
    ensures IntendedLineEnd(p, 0, off) == LineEnd(p, 0, off)
  {
  }

  /** Three writes of "foo" emit nothing and return 3 each; "bar\n" then
      emits the single line "foofoofoobar". */
  lemma LineBuffering()
    ensures var foo: seq<byte> := [102, 111, 111];
            var s1 := WriteSpec([], DefaultLineBufferSize, foo);
            var s2 := WriteSpec(s1.carry, DefaultLineBufferSize, foo);
            var s3 := WriteSpec(s2.carry, DefaultLineBufferSize, foo);
            var s4 := WriteSpec(s3.carry, DefaultLineBufferSize, [98, 97, 114, 10]);
            s1.n == 3 && s1.err == None && s1.lines == [] &&
            s2.n == 3 && s2.err == None && s2.lines == [] &&
            s3.n == 3 && s3.err == None && s3.lines == [] &&
            s4 == Step(4, None, [[102, 111, 111, 102, 111, 111, 102, 111, 111, 98, 97, 114]], [])
  {
    LineBufferingOn([102, 111, 111], [98, 97, 114, 10]);
  }

  lemma LineBufferingOn(foo: seq<byte>, bar: seq<byte>)
    requires |foo| == 3 && foo[0] == 102 && foo[1] == 111 && foo[2] == 111
    requires |bar| == 4 && bar[0] == 98 && bar[1] == 97 && bar[2] == 114 && bar[3] == 10
    ensures var s1 := WriteSpec([], DefaultLineBufferSize, foo);
            var s2 := WriteSpec(s1.carry, DefaultLineBufferSize, foo);
            var s3 := WriteSpec(s2.carry, DefaultLineBufferSize, foo);
            var s4 := WriteSpec(s3.carry, DefaultLineBufferSize, bar);
            s1.n == 3 && s1.err == None && s1.lines == [] &&
            s2.n == 3 && s2.err == None && s2.lines == [] &&
            s3.n == 3 && s3.err == None && s3.lines == [] &&
            s4 == Step(4, None, [[102, 111, 111, 102, 111, 111, 102, 111, 111, 98, 97, 114]], [])
  {
    var c1, c2, c3 := foo, foo + foo, foo + foo + foo;
    assert c3 + [98, 97, 114] == [102, 111, 111, 102, 111, 111, 102, 111, 111, 98, 97, 114];
    assert [] + foo == c1;
    NoNewlineWrite([], foo);
    NoNewlineWrite(c1, foo);
    NoNewlineWrite(c2, foo);
    BarLine(c3, bar);
  }

  /** "foo" written after any short carry: consumed whole, nothing emitted,
      the carry grows by it. */
  lemma NoNewlineWrite(carry: seq<byte>, p: seq<byte>)
    requires |carry| <= 6 && |p| == 3 && p[0] == 102 && p[1] == 111 && p[2] == 111
    ensures WriteSpec(carry, DefaultLineBufferSize, p) == Step(3, None, [], carry + p)
  {
    ScanDone(p, 0, []);
    assert p[0..] == p;
  }

  /** "bar\n" after a short carry: consumed whole, emits the carry and "bar". */
  lemma BarLine(carry: seq<byte>, p: seq<byte>)
    requires |carry| <= 9 && |p| == 4 && p[0] == 98 && p[1] == 97 && p[2] == 114 && p[3] == 10
    ensures WriteSpec(carry, DefaultLineBufferSize, p) == Step(4, None, [carry + [98, 97, 114]], [])
  {
    ScanCut(p, 0, [], 3, [98, 97, 114], [[98, 97, 114]]);
    ScanDone(p, 4, [[98, 97, 114]]);
  }

  /** "bc\n", then C - 3 bytes 'A', "zz" and three zero bytes, written to a
      fresh decoder with a C-byte buffer: "bc" is emitted, only the 3 bytes up
      to the newline are consumed, and the overflow carries the C + 2 bytes
      after it with BufferSize = BufferFree = C. A following "foo\n" is
      consumed whole and emits "foo". */
  lemma OverflowInOneWrite(c: nat)
    requires c >= 3
    ensures var long := [98, 99, 10] + Repeat(65, c - 3) + [122, 122, 0, 0, 0];
            var s := WriteSpec([], c, long);
            var t := WriteSpec(s.carry, c, [102, 111, 111, 10]);
            s == Step(3, Some(Overflow(long[3..], c, c)), [[98, 99]], []) &&
            t == Step(4, None, [[102, 111, 111]], [])
  {
    var long := [98, 99, 10] + Repeat(65, c - 3) + [122, 122, 0, 0, 0];
    OverflowScan(c, long);
    PrefixedNil([[98, 99]]);
    assert [] + long[3..] == long[3..];
    FooLine(c);
  }

  /** The scanning loop on the long line of the overflow test: one line,
      and the tail starts after the first newline. */
  lemma OverflowScan(c: nat, long: seq<byte>)
    requires c >= 3 && long == [98, 99, 10] + Repeat(65, c - 3) + [122, 122, 0, 0, 0]
    ensures |long| == c + 5
    ensures Scan(long, 0, []) == ([[98, 99]], 3)
  {
    LongStart(c, [122, 122, 0, 0, 0], long);
    OverflowRest(c, long);
  }

  lemma OverflowRest(c: nat, long: seq<byte>)
    requires c >= 3 && |long| == c + 5 && long[c..] == [122, 122, 0, 0, 0]
    requires forall j | 3 <= j < c :: long[j] == 65
    ensures Scan(long, 3, [[98, 99]]) == ([[98, 99]], 3)
  {
    forall j | 3 <= j < |long| ensures long[j] != NL {
      if j >= c {
        assert long[j] == long[c..][j - c];
      }
    }
    ScanDone(long, 3, [[98, 99]]);
  }

  /** "foo\n" written with nothing carried: consumed whole, emits "foo". */
  lemma FooLine(size: nat)
    requires size >= 3
    ensures WriteSpec([], size, [102, 111, 111, 10]) == Step(4, None, [[102, 111, 111]], [])
  {
    FooLineOn(size, [102, 111, 111, 10]);
  }

  lemma FooLineOn(size: nat, p: seq<byte>)
    requires size >= 3 && |p| == 4 && p[0] == 102 && p[1] == 111 && p[2] == 111 && p[3] == 10
    ensures WriteSpec([], size, p) == Step(4, None, [[102, 111, 111]], [])
  {
    ScanCut(p, 0, [], 3, [102, 111, 111], [[102, 111, 111]]);
    ScanDone(p, 4, [[102, 111, 111]]);
    PrefixedNil([[102, 111, 111]]);
  }

  /** The long lines of the overflow tests: "bc\n" is cut first, then C - 3
      bytes 'A' and the given tail follow. */
  lemma LongStart(c: nat, tail: seq<byte>, long: seq<byte>)
    requires c >= 3 && long == [98, 99, 10] + Repeat(65, c - 3) + tail
    ensures |long| == c + |tail| && long[c..] == tail
    ensures forall j | 3 <= j < c :: long[j] == 65
    ensures Scan(long, 0, []) == Scan(long, 3, [[98, 99]])
  {
    assert |long| == c + |tail|;
    forall j | 3 <= j < c ensures long[j] == 65 {
      assert long[j] == Repeat(65, c - 3)[j - 3];
    }
    assert long[c..] == tail;
    ScanLine(long, 0, [], 2);
    assert LineEnd(long, 0, 2) == 2;
    assert long[0..2] == [98, 99];
    assert [] + [long[0..2]] == [[98, 99]];
  }

  /** "foo\nbar" emits "foo" and carries "bar"; C bytes 'X' then overflow a
      C-byte buffer without consuming anything, with BufferFree = C - 3 and
      the line "bar" followed by the C bytes. */
  lemma OverflowOnSecondWrite(c: nat)
    requires c >= 3
    ensures var s := WriteSpec([], c, [102, 111, 111, 10, 98, 97, 114]);
            var t := WriteSpec(s.carry, c, Repeat(88, c));
            s == Step(7, None, [[102, 111, 111]], [98, 97, 114]) &&
            t == Step(0, Some(Overflow([98, 97, 114] + Repeat(88, c), c, c - 3)), [], [98, 97, 114])
  {
    FooThenBar(c, [102, 111, 111, 10, 98, 97, 114]);
    var x := Repeat(88, c);
    ScanDone(x, 0, []);
    assert x[0..] == x;
  }

  lemma FooThenBar(size: nat, p: seq<byte>)
    requires size >= 3
    requires |p| == 7 && p[0] == 102 && p[1] == 111 && p[2] == 111 && p[3] == 10
    requires p[4] == 98 && p[5] == 97 && p[6] == 114
    ensures WriteSpec([], size, p) == Step(7, None, [[102, 111, 111]], [98, 97, 114])
  {
    ScanCut(p, 0, [], 3, [102, 111, 111], [[102, 111, 111]]);
    ScanDone(p, 4, [[102, 111, 111]]);
    PrefixedNil([[102, 111, 111]]);
    assert [] + p[4..] == [98, 97, 114];
  }

  /** With the buffer doubled before the first write, the long line of the
      overflow test ending in "z\n" instead of "zz" is consumed whole: "bc"
      and then the C - 2 bytes before the second newline are emitted, and the
      three zero bytes after it are carried. */
  lemma DoubledBuffer(c: nat)
    requires c >= 6
    ensures var long := [98, 99, 10] + Repeat(65, c - 3) + [122, 10, 0, 0, 0];
            WriteSpec([], 2 * c, long) ==
            Step(c + 5, None, [[98, 99], long[3..c + 1]], [0, 0, 0])
  {
    var long := [98, 99, 10] + Repeat(65, c - 3) + [122, 10, 0, 0, 0];
    var segs := [[98, 99], long[3..c + 1]];
    DoubledScan(c, long);
    PrefixedNil(segs);
    assert [] + long[c + 2..] == [0, 0, 0];
  }

  /** The scanning loop on that input: two lines, the tail after the
      second newline. */
  lemma DoubledScan(c: nat, long: seq<byte>)
    requires c >= 6 && long == [98, 99, 10] + Repeat(65, c - 3) + [122, 10, 0, 0, 0]
    ensures |long| == c + 5 && long[c + 2..] == [0, 0, 0]
    ensures Scan(long, 0, []) == ([[98, 99], long[3..c + 1]], c + 2)
  {
    LongStart(c, [122, 10, 0, 0, 0], long);
    DoubledRest(c, long);
  }

  lemma DoubledRest(c: nat, long: seq<byte>)
    requires c >= 6 && |long| == c + 5 && long[c..] == [122, 10, 0, 0, 0]
    requires forall j | 3 <= j < c :: long[j] == 65
    ensures long[c + 2..] == [0, 0, 0]
    ensures Scan(long, 3, [[98, 99]]) == ([[98, 99], long[3..c + 1]], c + 2)
  {
    assert long[c] == 122 && long[c + 1] == NL && long[c + 2..] == [0, 0, 0] by {
      assert long[c..][0] == 122 && long[c..][1] == NL && long[c..][2..] == [0, 0, 0];
    }
    assert Scan(long, 3, [[98, 99]]) == Scan(long, c + 2, [[98, 99], long[3..c + 1]]) by {
      ScanLine(long, 3, [[98, 99]], c - 2);
      assert long[c - 3] == 65;
      assert LineEnd(long, 3, c - 2) == c + 1;
      assert [[98, 99]] + [long[3..c + 1]] == [[98, 99], long[3..c + 1]];
    }
    ScanDone(long, c + 2, [[98, 99], long[3..c + 1]]);
  }
}
