/** The line decoder of linestream/stream.go: a writer that cuts the bytes
    written to it into lines and hands each completed line to a callback,
    carrying an unterminated tail over to the next write in a fixed-size
    buffer. */
module Linestream {
  import opened Wrappers
  import opened Bytes

  const DefaultLineBufferSize: nat := 16384

  /** ErrLineBufferOverflow: the unterminated line that did not fit, the
      buffer size, and the free bytes left in the buffer. */
  datatype Overflow = Overflow(line: seq<byte>, bufferSize: int, bufferFree: int)

  /** The number ErrLineBufferOverflow.Error() reports as "bytes too long to
      buffer". */
  function TooLongBy(e: Overflow): (r: int)
    ensures e.bufferSize + r == |e.line|
    ensures r > 0 <==> |e.line| > e.bufferSize
  {
    |e.line| - e.bufferSize
  }

  /** bytes.IndexByte: the first index of b in s, or -1. */
  function IndexByte(s: seq<byte>, b: byte): (r: int)
    ensures -1 <= r < |s|
    ensures r >= 0 ==> s[r] == b
  {
    IndexFrom(s, 0, b)
  }

  /** The first index of b in s at or after i, or -1. */
  function IndexFrom(s: seq<byte>, i: nat, b: byte): (r: int)
    requires i <= |s|
    ensures -1 <= r < |s|
    ensures r >= 0 ==> i <= r && s[r] == b
    decreases |s| - i
  {
    if i == |s| then -1
    else if s[i] == b then i
    else IndexFrom(s, i + 1, b)
  }

  /** IndexFrom finds the first occurrence at or after i, and -1 means there
      is none there. */
  lemma {:induction false} IndexFromFirst(s: seq<byte>, i: nat, b: byte)
    requires i <= |s|
    ensures forall j | i <= j < |s| && (IndexFrom(s, i, b) < 0 || j < IndexFrom(s, i, b)) :: s[j] != b
    decreases |s| - i
  {
    if i < |s| && s[i] != b {
      IndexFromFirst(s, i + 1, b);
    }
  }

  /** The index IndexByte finds is the first occurrence, and -1 means there
      is none. */
  lemma IndexByteFirst(s: seq<byte>, b: byte)
    ensures IndexByte(s, b) >= 0 ==> b !in s[..IndexByte(s, b)]
    ensures IndexByte(s, b) < 0 <==> b !in s
  {
    IndexFromFirst(s, 0, b);
  }

  /** The end of the line whose newline is at start + off, with one carriage
      return dropped. The byte tested is p[off - 1], an index relative to the
      segment start and not to the start of p, and only when off > 0. */
  function LineEnd(p: seq<byte>, start: nat, off: nat): (e: nat)
    requires start + off < |p|
    ensures start <= e <= start + off
    ensures e == start + off || e == start + off - 1
  {
    if off > 0 && p[off - 1] == CR then start + off - 1 else start + off
  }

  /** The scanning loop of Write from offset pos on, with the lines cut so
      far in acc (before the carried bytes are put in front of the first): the
      lines it cuts and the offset where the unterminated tail starts. */
  function Scan(p: seq<byte>, pos: nat, acc: seq<seq<byte>>): (r: (seq<seq<byte>>, nat))
    requires pos <= |p|
    ensures pos <= r.1 <= |p|
    decreases |p| - pos
  {
    var off := IndexByte(p[pos..], NL);
    if off < 0 then (acc, pos)
    else Scan(p, pos + off + 1, acc + [p[pos..LineEnd(p, pos, off)]])
  }

  lemma ScanStep(p: seq<byte>, pos: nat, acc: seq<seq<byte>>, off: int)
    requires pos <= |p| && off == IndexByte(p[pos..], NL) && off >= 0
    ensures Scan(p, pos, acc) == Scan(p, pos + off + 1, acc + [p[pos..LineEnd(p, pos, off)]])
  {
  }

  /** Scanning stops after a newline (or where it started), and the tail it
      leaves holds no newline. */
  lemma {:induction false} ScanTail(p: seq<byte>, pos: nat, acc: seq<seq<byte>>)
    requires pos <= |p|
    ensures forall i | Scan(p, pos, acc).1 <= i < |p| :: p[i] != NL
    ensures Scan(p, pos, acc).1 == pos || p[Scan(p, pos, acc).1 - 1] == NL
    decreases |p| - pos
  {
    var off := IndexByte(p[pos..], NL);
    IndexFromFirst(p[pos..], 0, NL);
    if off >= 0 {
      var acc' := acc + [p[pos..LineEnd(p, pos, off)]];
      ScanStep(p, pos, acc, off);
      assert p[pos + off] == NL;
      ScanTail(p, pos + off + 1, acc');
    }
  }

  /** The carried bytes go in front of the first line only. */
  function Prefixed(carry: seq<byte>, segs: seq<seq<byte>>): (r: seq<seq<byte>>)
    ensures |r| == |segs|
  {
    if segs == [] then [] else [carry + segs[0]] + segs[1..]
  }

  lemma PrefixedSnoc(carry: seq<byte>, segs: seq<seq<byte>>, x: seq<byte>)
    ensures Prefixed(carry, segs + [x]) == Prefixed(carry, segs) + [if segs == [] then carry + x else x]
  {
    if segs != [] {
      assert (segs + [x])[1..] == segs[1..] + [x];
    }
  }

  /** What one Write does, given the carried bytes and the buffer size: the
      count it returns, the overflow it reports, the lines it emits and the
      bytes carried afterwards. */
  datatype Step = Step(n: int, err: Option<Overflow>, lines: seq<seq<byte>>, carry: seq<byte>)

  function WriteSpec(carry: seq<byte>, size: nat, p: seq<byte>): (s: Step)
    requires |carry| <= size
    ensures 0 <= s.n <= |p|
    ensures s.err.None? ==> s.n == |p|
    ensures |s.carry| <= size
    ensures s.err.Some? ==> s.err.value.bufferSize == size && s.err.value.bufferFree == size - |s.carry|
  {
    var scan := Scan(p, 0, []);
    var segs := scan.0;
    var q := scan.1;
    var kept := if segs == [] then carry else [];
    if q < |p| && |p| - q > size - |kept| then
      Step(q, Some(Overflow(kept + p[q..], size, size - |kept|)), Prefixed(carry, segs), kept)
    else
      Step(|p|, None, Prefixed(carry, segs), kept + p[q..])
  }

  /** The decoder. Lines handed to the callback are recorded, in order, in
      the ghost sequence emitted. */
  class LineStream {
    var buf: array<byte>
    var bufSize: int
    var lastChar: int
    ghost var emitted: seq<seq<byte>>

    /** 0 <= lastChar <= len(buf) == bufSize, and the carried bytes never
        hold a newline (they are the tail after the last one). */
    ghost predicate Valid()
      reads this, buf
    {
      0 <= lastChar <= buf.Length == bufSize && NL !in buf[..lastChar]
    }

    /** The bytes carried over to the next write. */
    ghost function Carry(): seq<byte>
      reads this, buf
      requires Valid()
    {
      buf[..lastChar]
    }

    /** New: a default-size buffer, nothing carried, nothing emitted. */
    constructor ()
      ensures Valid() && fresh(buf)
      ensures bufSize == DefaultLineBufferSize && Carry() == [] && emitted == []
    {
      bufSize := DefaultLineBufferSize;
      buf := new byte[DefaultLineBufferSize](_ => 0);
      lastChar := 0;
      emitted := [];
    }

    /** SetLineBufferSize: a fresh zero-filled buffer of n bytes. lastChar is
        not reset, so whatever count was carried now stands for zero bytes. */
    method SetLineBufferSize(n: int)
      requires Valid()
      requires lastChar <= n
      modifies this
      ensures Valid() && fresh(buf)
      ensures bufSize == n && buf.Length == n
      ensures lastChar == old(lastChar) && Carry() == Repeat(0, lastChar)
      ensures emitted == old(emitted)
    {
      bufSize := n;
      buf := new byte[bufSize](_ => 0);
    }

    /** The scanning loop of Write: every newline-terminated line of p goes
        to the callback, the carried bytes in front of the first one, and the
        offset just past the last newline is returned. */
    method EmitLines(p: seq<byte>) returns (firstCharPos: nat, ghost segs: seq<seq<byte>>)
      requires Valid()
      modifies this
      ensures Valid() && buf == old(buf) && bufSize == old(bufSize)
      ensures (segs, firstCharPos) == Scan(p, 0, [])
      ensures segs == [] ==> lastChar == old(lastChar)
      ensures segs != [] ==> lastChar == 0
      ensures emitted == old(emitted) + Prefixed(old(Carry()), segs)
    {
      ghost var carry0 := Carry();
      ghost var target := Scan(p, 0, []);
      ghost var lines: seq<seq<byte>> := [];
      firstCharPos := 0;
      segs := [];
      while true
        invariant 0 <= firstCharPos <= |p|
        invariant target == Scan(p, firstCharPos, segs)
        invariant buf == old(buf) && bufSize == old(bufSize)
        invariant 0 <= lastChar <= buf.Length
        invariant segs == [] ==> firstCharPos == 0 && lastChar == |carry0| && buf[..lastChar] == carry0
        invariant segs != [] ==> lastChar == 0
        invariant emitted == old(emitted) && lines == Prefixed(carry0, segs)
        decreases |p| - firstCharPos
      {
        var newlineOffset := IndexByte(p[firstCharPos..], NL);
        if newlineOffset < 0 {
          break;
        }
        var lineEnd := firstCharPos + newlineOffset;
        if newlineOffset > 0 && p[newlineOffset - 1] == CR {
          lineEnd := lineEnd - 1;
        }
        assert lineEnd == LineEnd(p, firstCharPos, newlineOffset);
        ghost var seg := p[firstCharPos..lineEnd];
        var line: seq<byte> := [];
        if lastChar > 0 {
          line := buf[0..lastChar];
          assert line == carry0;
          lastChar := 0;
        } else {
          assert segs != [] || carry0 == [];
        }
        line := line + p[firstCharPos..lineEnd];
        assert line == if segs == [] then carry0 + seg else seg;
        PrefixedSnoc(carry0, segs, seg);
        ScanStep(p, firstCharPos, segs, newlineOffset);
        lines := lines + [line];
        segs := segs + [seg];
        firstCharPos := firstCharPos + newlineOffset + 1;
      }
      emitted := emitted + lines;
    }

    /** The tail of Write: the bytes of p from offset from on, which hold no
        newline, are appended to the carried bytes if they fit in the free
        part of the buffer; otherwise nothing changes and the overflow is
        reported with the carried bytes and the tail as its line. */
    method Keep(p: seq<byte>, from: nat) returns (n: int, err: Option<Overflow>)
      requires Valid() && from <= |p| && NL !in p[from..]
      modifies this, buf
      ensures Valid() && buf == old(buf) && bufSize == old(bufSize) && emitted == old(emitted)
      ensures from < |p| && |p| - from > bufSize - |old(Carry())| ==>
                n == from && Carry() == old(Carry()) &&
                err == Some(Overflow(old(Carry()) + p[from..], bufSize, bufSize - |old(Carry())|))
      ensures !(from < |p| && |p| - from > bufSize - |old(Carry())|) ==>
                n == |p| && err == None && Carry() == old(Carry()) + p[from..]
    {
      n := |p|;
      err := None;
      if from < n {
        var remain := |p| - from;
        var bufFree := buf.Length - lastChar;
        if remain > bufFree {
          var line: seq<byte> := [];
          if lastChar > 0 {
            line := buf[0..lastChar];
          }
          line := line + p[from..];
          err := Some(Overflow(line, bufSize, bufFree));
          n := from;
          return;
        }
        forall i | lastChar <= i < lastChar + remain {
          buf[i] := p[from + i - lastChar];
        }
        assert buf[..lastChar + remain] == old(buf[..lastChar]) + p[from..];
        lastChar := lastChar + remain;
      }
    }

    /** Write: the lines of p go to the callback; the unterminated tail is
        carried if it fits and reported as an overflow otherwise. */
    method Write(p: seq<byte>) returns (n: int, err: Option<Overflow>)
      requires Valid()
      modifies this, buf
      ensures Valid() && buf == old(buf) && bufSize == old(bufSize)
      ensures var s := WriteSpec(old(Carry()), bufSize, p);
              n == s.n && err == s.err && emitted == old(emitted) + s.lines && Carry() == s.carry
    {
      ghost var carry0 := Carry();
      var firstCharPos, segs := EmitLines(p);
      ScanTail(p, 0, []);
      assert NL !in p[firstCharPos..];
      assert Carry() == if segs == [] then carry0 else [];
      n, err := Keep(p, firstCharPos);
    }
  }
}
